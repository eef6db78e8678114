/** Exactly when an edit of the governance files throws and exactly when it changes a file, by guards that
    can be read before it is made (packages/core/src/tickets/create.ts, packages/core/src/tickets/close.ts,
    packages/core/src/tickets/repoint.ts, packages/core/src/tickets/reconcile.ts,
    packages/daemon/src/priority-authoring.ts). */
module GovernanceGuards {
  import opened Outcomes
  import opened Sequences
  import opened Text
  import opened Governance

  // ----- errors -----

  /** A guard turns the edit away before its first write. */
  predicate Refuses(d: Disk, a: Action, v: Verdict) {
    match a
    case TicketCreate(id, _) => Known(d, id)
    case TicketClose(id) => v.gateBlocks || !IsOpen(d, id)
    case TicketRepoint(id, target, _) =>
      (target.Some? && target.value !in d.priorities) || !IsOpen(d, id) || d.open[id].home == target
    case PriorityCreate(id) => PriorityTaken(d, id)
    case _ => false
  }

  /** The edit breaks where it still can throw: creates, and repoints that write no order, read back last. */
  predicate Breaks(a: Action, b: Break) {
    match a
    case TicketCreate(_, _) => b.At?
    case TicketClose(_) => !Made(b, 4)
    case TicketRepoint(_, _, newOrder) => if newOrder.None? then b.At? else !Made(b, 5)
    case PriorityCreate(_) => !Made(b, 4)
    case _ => !Made(b, 2)
  }

  predicate Throws(d: Disk, a: Action, v: Verdict) {
    Refuses(d, a, v) || Breaks(a, v.breaks)
  }

  lemma ThrowsIff(d: Disk, a: Action, v: Verdict)
    ensures Apply(d, a, v).error.Some? <==> Throws(d, a, v)
  {
  }

  // ----- changes -----

  /** A close that went through, or a file of it that its roll-back did not put back. */
  predicate CloseChanges(d: Disk, id: string, b: Break, stuck: set<File>)
    requires IsOpen(d, id)
  {
    || Made(b, 4)
    || (Made(b, 1) && OpenFile in stuck)
    || (Made(b, 2) && ClosedFile in stuck && !(id in d.closed && d.closed[id] == Resolved(d.open[id])))
    || (Made(b, 3) && OrderFile in stuck && id in d.order)
  }

  /** A direct close: without an open ticket, the order had it. */
  predicate Closes(d: Disk, id: string, hasCommit: bool, b: Break, stuck: set<File>) {
    if IsOpen(d, id) then hasCommit && CloseChanges(d, id, b, stuck)
    else Made(b, 1) && id in d.order
  }

  /** An order that is written is another one, or its draft is another one or renamed away. */
  predicate OrderChanges(d: Disk, order: seq<string>, drafted: bool, renamed: bool) {
    if renamed then order != d.order || d.draft.Some?
    else drafted && !(d.draft.Some? && d.draft.value == order)
  }

  /** A priority that is created, or what its clean-up left aside, in place or in the draft of the order. */
  predicate PriorityChanges(d: Disk, b: Break, stuck: set<File>, registers: seq<string>) {
    || Made(b, 4)
    || (Made(b, 1) && !Made(b, 2) && AsideFile in stuck)
    || (Made(b, 2) && (AsideFile in stuck || TargetFile in stuck))
    || (Made(b, 3) && registers != [] && !(d.rankingDraft.Some? && d.rankingDraft.value == d.ranking + registers))
  }

  predicate Changes(d: Disk, a: Action, v: Verdict) {
    && !Refuses(d, a, v)
    && match a
       case TicketCreate(_, _) => Made(v.breaks, 1)
       case TicketClose(id) => CloseChanges(d, id, v.breaks, v.stuck)
       case TicketRepoint(id, _, _) => (Made(v.breaks, 1) && id !in d.order) || Made(v.breaks, 2)
       case TicketReconcile =>
         || (Made(v.breaks, 1) && SettledIndex(d, v.listing) != d.index)
         || (Made(v.breaks, 2) && Settled(d, v.listing) != d.order)
       case PriorityCreate(_) => PriorityChanges(d, v.breaks, v.stuck, v.registers)
       case TicketReorder(order) =>
         OrderChanges(d, OpenOnly(order, d.open), Made(v.breaks, 1), Made(v.breaks, 2))
  }

  lemma WithoutIff(order: seq<string>, id: string)
    ensures Without(order, id) != order <==> id in order
  {
    FilterAll(order, k => k != id);
  }

  lemma OpenCloseChangesIff(d: Disk, id: string, b: Break, stuck: set<File>)
    requires IsOpen(d, id)
    ensures CloseOpen(d, id, b, stuck).disk != d <==> CloseChanges(d, id, b, stuck)
  {
    hide RowClosed;
    WithoutIff(d.order, id);
    var resolved := Resolved(d.open[id]);
    assert d.open[id := resolved][id] != d.open[id];
    assert id !in d.open - {id};
    assert d.closed[id := resolved] == d.closed <==> id in d.closed && d.closed[id] == resolved;
  }

  lemma ClosesIff(d: Disk, id: string, hasCommit: bool, b: Break, stuck: set<File>)
    ensures CloseTicket(d, id, hasCommit, b, stuck).disk != d <==> Closes(d, id, hasCommit, b, stuck)
  {
    hide CloseOpen, CloseChanges;
    if IsOpen(d, id) {
      OpenCloseChangesIff(d, id, b, stuck);
    } else {
      WithoutIff(d.order, id);
    }
  }

  lemma RepointChangesIff(d: Disk, id: string, target: Option<string>, newOrder: Option<seq<string>>, b: Break)
    requires IsOpen(d, id) && d.open[id].home != target && (target.Some? ==> target.value in d.priorities)
    ensures RepointTicket(d, id, target, newOrder, b).disk != d
            <==> (Made(b, 1) && id !in d.order) || Made(b, 2)
  {
    hide RowRebound, OpenOnly;
    assert d.open[id := d.open[id].(home := target)][id] != d.open[id];
    assert |d.order + [id]| == |d.order| + 1;
  }

  lemma PriorityChangesIff(d: Disk, id: string, b: Break, stuck: set<File>, registers: seq<string>)
    requires !PriorityTaken(d, id)
    ensures CreatePriority(d, id, b, stuck, registers).disk != d <==> PriorityChanges(d, b, stuck, registers)
  {
    assert id in d.priorities ==> PriorityTaken(d, id);
    assert id in d.priorities + {id};
    assert |d.asides + [id]| == |d.asides| + 1;
  }

  /** An edit changes a file exactly when no guard turns it away and some write of it is made, is another
      content, and is not undone. */
  lemma ChangesIff(d: Disk, a: Action, v: Verdict)
    ensures Apply(d, a, v).disk != d <==> Changes(d, a, v)
  {
    hide CloseOpen, CloseChanges, CreatePriority, PriorityChanges, RepointTicket, Settled, SettledIndex, OpenOnly, PriorityTaken,
      Names;
    if !Refuses(d, a, v) {
      match a
      case TicketCreate(id, home) =>
        assert id !in d.open && id in d.open[id := TicketFile(home, 0)];
      case TicketClose(id) => OpenCloseChangesIff(d, id, v.breaks, v.stuck);
      case TicketRepoint(id, target, newOrder) => RepointChangesIff(d, id, target, newOrder, v.breaks);
      case PriorityCreate(id) => PriorityChangesIff(d, id, v.breaks, v.stuck, v.registers);
      case _ =>
    } else {
      RefusalKeepsDisk(d, a, v);
    }
  }

  lemma RefusalKeepsDisk(d: Disk, a: Action, v: Verdict)
    requires Refuses(d, a, v)
    ensures Apply(d, a, v).disk == d
  {
  }

  /** The same of an edit made at once. */
  predicate Edits(d: Disk, a: Action, hasCommit: bool, v: Verdict) {
    if a.TicketClose? then Closes(d, a.ticketId, hasCommit, v.breaks, v.stuck) else Changes(d, a, v)
  }

  lemma EditsIff(d: Disk, a: Action, hasCommit: bool, v: Verdict)
    ensures Direct(d, a, hasCommit, v) != d <==> Edits(d, a, hasCommit, v)
  {
    hide Apply, CloseTicket, Closes, Changes;
    if a.TicketClose? {
      ClosesIff(d, a.ticketId, hasCommit, v.breaks, v.stuck);
    } else {
      ChangesIff(d, a, v);
    }
  }

  // ----- edits that must not be repeated -----

  predicate OnceOnly(a: Action) {
    a.TicketCreate? || a.TicketClose? || a.PriorityCreate?
  }

  /** The edit has been made. */
  predicate Spent(d: Disk, a: Action) {
    match a
    case TicketCreate(id, _) => HasFile(d, id)
    case TicketClose(id) => id !in d.open && id in d.closed
    case PriorityCreate(id) => PriorityTaken(d, id)
    case _ => false
  }

  /** This step made the edit. */
  predicate Achieves(d: Disk, a: Action, next: Disk) {
    OnceOnly(a) && !Spent(d, a) && Spent(next, a)
  }

  /** An edit that does not throw is made by its step, and one that was made is refused. */
  lemma AchievedUnlessThrown(d: Disk, a: Action, v: Verdict)
    requires OnceOnly(a)
    ensures Apply(d, a, v).error.None? ==> Achieves(d, a, Apply(d, a, v).disk)
    ensures Spent(d, a) ==> Refuses(d, a, v) && Apply(d, a, v).disk == d
  {
    if a.PriorityCreate? && !PriorityTaken(d, a.priorityId) {
      assert a.priorityId in d.priorities + {a.priorityId};
    }
  }

  /** The tickets a step leaves without any file. */
  function Losses(d: Disk, next: Disk): (lost: set<string>)
    ensures forall id :: id in lost <==> HasFile(d, id) && !HasFile(next, id)
  {
    set id | id in d.open.Keys + d.closed.Keys && !HasFile(next, id)
  }

  /** The roll-back of a close removes the renamed file but cannot write the open one. */
  predicate LosesTicket(d: Disk, id: string, b: Break, stuck: set<File>) {
    IsOpen(d, id) && id !in d.closed && Made(b, 2) && !Made(b, 4) && OpenFile in stuck && ClosedFile !in stuck
  }

  /** A ticket is lost exactly by a close of it that is so rolled back. */
  lemma LossesIff(d: Disk, a: Action, hasCommit: bool, v: Verdict, id: string)
    ensures id in Losses(d, Direct(d, a, hasCommit, v))
            <==> a == TicketClose(id) && hasCommit && LosesTicket(d, id, v.breaks, v.stuck)
  {
    hide RowClosed, RowRebound, Settled, SettledIndex, Without, OpenOnly, Known, PriorityTaken;
  }

  /** The same of a queued edit. */
  lemma QueuedLossesIff(d: Disk, a: Action, v: Verdict, id: string)
    ensures id in Losses(d, Apply(d, a, v).disk)
            <==> a == TicketClose(id) && !v.gateBlocks && LosesTicket(d, id, v.breaks, v.stuck)
  {
    hide Direct, Apply;
    LossesIff(d, a, true, v, id);
    QueuedIsDirect(d, a, v);
  }

  /** A queued edit is the direct one, but for a close that is blocked or finds no open ticket. */
  lemma QueuedIsDirect(d: Disk, a: Action, v: Verdict)
    ensures Apply(d, a, v).disk
            == if a.TicketClose? && (v.gateBlocks || !IsOpen(d, a.ticketId)) then d else Direct(d, a, true, v)
  {
  }

  /** What was made stays made, unless it is the ticket that is lost. */
  lemma SpentStaysIff(d: Disk, spent: Action, a: Action, hasCommit: bool, v: Verdict)
    requires Spent(d, spent)
    ensures Spent(Direct(d, a, hasCommit, v), spent)
            <==> !(spent.TicketCreate? && spent.reservedId in Losses(d, Direct(d, a, hasCommit, v)))
  {
    hide RowClosed, RowRebound, Settled, SettledIndex, Without, OpenOnly;
    if spent.PriorityCreate? {
      var p :| p in d.priorities && Lower(p) == Lower(spent.priorityId);
      assert p in Direct(d, a, hasCommit, v).priorities;
    }
  }

  /** A close on a full disk: the file is renamed, the order cannot be written, the roll-back removes the
      renamed file and cannot write the open one; no file of the ticket is left. */
  lemma FailedRollBackLosesTicket()
    ensures var d := NO_DISK.(open := map["0001" := TicketFile(None, 0)], order := ["0001"]);
            var full := FINE.(breaks := At(2), stuck := {OpenFile, OrderFile});
            Apply(d, TicketClose("0001"), full) == Applied(NO_DISK.(order := ["0001"]), Some("close rolled back"))
  {
    assert map["0001" := TicketFile(None, 0)] - {"0001"} == map[];
  }
}
