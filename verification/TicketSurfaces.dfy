/** The ticket edits as they are made, one write after the other, and the roll-back of a close
    (packages/core/src/tickets/create.ts, packages/core/src/tickets/close.ts,
    packages/core/src/tickets/repoint.ts, packages/core/src/tickets/reconcile.ts). Each comes to what
    `Governance` says of it, wherever it breaks. */
module TicketSurfaces {
  import opened Outcomes
  import opened Governance

  class TicketDirectories {
    var open: map<string, TicketFile>
    var closed: map<string, TicketFile>
    var index: Index
    var order: seq<string>
    var draft: Option<seq<string>>
    const priorities: set<string>

    function View(): Disk
      reads this
    {
      NO_DISK.(open := open, closed := closed, index := index, order := order, draft := draft, priorities := priorities)
    }

    constructor (open: map<string, TicketFile>, index: Index, order: seq<string>, priorities: set<string>)
      ensures View() == NO_DISK.(open := open, index := index, order := order, priorities := priorities)
    {
      this.open, this.closed, this.index, this.order := open, map[], index, order;
      this.draft, this.priorities := None, priorities;
    }

    /** Writes the file, the index and the order of a new ticket and reads it back. */
    method CreateTicket(id: string, home: Option<string>, b: Break) returns (error: Option<string>)
      modifies this
      ensures Applied(View(), error) == Governance.CreateTicket(old(View()), id, home, b)
    {
      if Known(View(), id) {
        return Some("already exists");
      }
      error := Some("create failed");
      if b == At(0) {
        return;
      }
      open := open[id := TicketFile(home, 0)];
      if b == At(1) {
        return;
      }
      index := index.(open := [Row(id, home)] + index.open);
      if b == At(2) {
        return;
      }
      order := order + [id];
      if b.At? {
        return;
      }
      error := None;
    }

    /** Without an open ticket, prunes the order all the same. */
    method CloseTicket(id: string, hasCommit: bool, b: Break, stuck: set<File>) returns (error: Option<string>)
      modifies this
      ensures Applied(View(), error) == Governance.CloseTicket(old(View()), id, hasCommit, b, stuck)
    {
      hide CloseOpen, Without;
      if id !in open {
        if b != At(0) {
          order := Without(order, id);
        }
        return Some("not open");
      }
      if !hasCommit {
        return Some("missing verified commit");
      }
      error := CloseOpenTicket(id, b, stuck);
    }

    /** Resolves the file, renames it, prunes the order and moves the row, rolling back on a break. */
    method CloseOpenTicket(id: string, b: Break, stuck: set<File>) returns (error: Option<string>)
      requires IsOpen(View(), id)
      modifies this
      ensures Applied(View(), error) == CloseOpen(old(View()), id, b, stuck)
    {
      hide Without, RowClosed, SameBut;
      var was := View();
      SameButReflexive(open, id);
      SameButReflexive(closed, id);
      SetKeepsSame(open, id, Resolved(open[id]));
      SetKeepsSame(closed, id, Resolved(open[id]));
      error := Some("close rolled back");
      if b == At(0) {
        return;
      }
      open := open[id := Resolved(open[id])];
      if b == At(1) {
        RollBack(id, was, stuck);
        return;
      }
      assert open - {id} == was.open - {id};
      closed, open := closed[id := open[id]], open - {id};
      if b == At(2) {
        RollBack(id, was, stuck);
        return;
      }
      order := Without(order, id);
      if b == At(3) {
        RollBack(id, was, stuck);
        return;
      }
      index := RowClosed(index, id);
      error := None;
    }

    /** Puts back, file by file, what it can; a file that was not there is removed. */
    method RollBack(id: string, was: Disk, stuck: set<File>)
      requires id in was.open && SameBut(open, was.open, id) && SameBut(closed, was.closed, id)
      modifies this`open, this`closed, this`order
      ensures open == if OpenFile in stuck then old(open) else was.open
      ensures closed == if ClosedFile in stuck then old(closed) else was.closed
      ensures order == if OrderFile in stuck then old(order) else was.order
    {
      hide SameBut;
      PutBack(open, was.open, id);
      PutBack(closed, was.closed, id);
      if OpenFile !in stuck {
        open := open[id := was.open[id]];
      }
      if ClosedFile !in stuck {
        closed := if id in was.closed then closed[id := was.closed[id]] else closed - {id};
      }
      if OrderFile !in stuck {
        order := was.order;
      }
    }

    /** Appends a missing ticket to the order, writes its file and its row, reads it back, and writes the
        order requested with it. */
    method RepointTicket(id: string, target: Option<string>, newOrder: Option<seq<string>>, b: Break)
      returns (error: Option<string>)
      modifies this
      ensures Applied(View(), error) == Governance.RepointTicket(old(View()), id, target, newOrder, b)
    {
      hide RowRebound;
      if target.Some? && target.value !in priorities {
        return Some("missing priority");
      }
      if id !in open {
        return Some("missing open ticket");
      }
      if open[id].home == target {
        return Some("already at target");
      }
      error := Some("repoint failed");
      if b == At(0) {
        return;
      }
      var listed := OpenOnly(if newOrder.Some? then newOrder.value else [], open);
      if id !in order {
        order := order + [id];
      }
      if b == At(1) {
        return;
      }
      open := open[id := open[id].(home := target)];
      if b == At(2) {
        return;
      }
      index := RowRebound(index, id, target);
      if b == At(3) || (newOrder.None? && b.At?) {
        return;
      }
      if newOrder.Some? {
        draft := Some(listed);
        if b == At(4) {
          return;
        }
        order, draft := listed, None;
      }
      error := None;
    }

    /** Brings the index and then the order back in line with the open tickets. */
    method ReconcileTicketSurfaces(listing: seq<string>, b: Break) returns (error: Option<string>)
      modifies this
      ensures Applied(View(), error) == ReconcileTickets(old(View()), listing, b)
    {
      hide Settled;
      var settled, nextIndex := Settled(View(), listing), SettledIndex(View(), listing);
      error := Some("reconcile failed");
      if b == At(0) {
        return;
      }
      if index != nextIndex {
        index := nextIndex;
      }
      if b == At(1) {
        return;
      }
      if order != settled {
        order := settled;
      }
      error := None;
    }
  }

  /** Only the file of this ticket differs. */
  ghost predicate SameBut(a: map<string, TicketFile>, b: map<string, TicketFile>, id: string) {
    forall k :: k != id ==> (k in a <==> k in b) && (k in a ==> a[k] == b[k])
  }

  lemma SameButReflexive(a: map<string, TicketFile>, id: string)
    ensures SameBut(a, a, id)
  {
  }

  lemma SetKeepsSame(a: map<string, TicketFile>, id: string, f: TicketFile)
    ensures SameBut(a[id := f], a, id) && SameBut(a - {id}, a, id)
  {
  }

  lemma PutBack(now: map<string, TicketFile>, was: map<string, TicketFile>, id: string)
    requires SameBut(now, was, id)
    ensures if id in was then now[id := was[id]] == was else now - {id} == was
  {
  }
}
