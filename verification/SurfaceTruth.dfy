/** What the index and the order of the tickets say, and which edits keep it so
    (packages/core/src/tickets/create.ts, packages/core/src/tickets/close.ts,
    packages/core/src/tickets/repoint.ts, packages/core/src/tickets/reconcile.ts,
    packages/core/src/tickets/index-helpers.ts). */
module SurfaceTruth {
  import opened Outcomes
  import opened Sequences
  import opened Text
  import opened Governance
  import opened GovernanceGuards
  import opened Reconciliation

  /** The open section has one row for every open ticket, with its file's priority, and no other; every closed
      ticket has a closed row. */
  ghost predicate IndexTrue(d: Disk) {
    && RowsDistinct(d.index.open)
    && (forall id :: id in d.open <==> HasRow(d.index.open, id))
    && (forall i :: 0 <= i < |d.index.open| && d.index.open[i].id in d.open ==>
          d.index.open[i].home == d.open[d.index.open[i].id].home)
    && (forall id :: id in d.closed ==> id in d.index.closed)
  }

  ghost predicate RowsDistinct(rows: seq<Row>) {
    forall i, j :: 0 <= i < j < |rows| ==> rows[i].id != rows[j].id
  }

  ghost predicate HasRow(rows: seq<Row>, id: string) {
    exists i :: 0 <= i < |rows| && rows[i].id == id
  }

  /** The order names every open ticket once, and no other. */
  ghost predicate OrderTrue(d: Disk) {
    Distinct(d.order) && forall id :: id in d.order <==> id in d.open
  }

  // ----- rows -----

  lemma {:induction false} DropFirstIs(rows: seq<Row>, id: string)
    requires RowsDistinct(rows)
    ensures RowsDistinct(DropFirst(rows, id))
    ensures forall r :: r in DropFirst(rows, id) <==> r in rows && r.id != id
  {
    if rows != [] {
      assert rows == [rows[0]] + rows[1..];
      DropFirstIs(rows[1..], id);
      if rows[0].id == id {
        assert forall r :: r in rows[1..] ==> r.id != id;
      } else {
        var rest := DropFirst(rows[1..], id);
        forall j | 0 <= j < |rest| ensures rest[j].id != rows[0].id {
          assert rest[j] in rest && rest[j] in rows[1..];
        }
      }
    }
  }

  /** The first row of an id is bound anew where it stands; there is none exactly when the id has no row. */
  lemma {:induction false} ReboundIs(rows: seq<Row>, id: string, home: Option<string>) returns (i: nat)
    ensures Rebound(rows, id, home).None? <==> !HasRow(rows, id)
    ensures Rebound(rows, id, home).Some? ==>
              && i < |rows| && rows[i].id == id && (forall j :: 0 <= j < i ==> rows[j].id != id)
              && Rebound(rows, id, home).value == rows[i := Row(id, home)]
  {
    i := 0;
    if rows != [] && rows[0].id != id {
      var rest := rows[1..];
      assert forall j :: 0 <= j < |rest| ==> rest[j] == rows[j + 1];
      var k := ReboundIs(rest, id, home);
      i := k + 1;
      if Rebound(rest, id, home).Some? {
        assert [rows[0]] + rest[k := Row(id, home)] == rows[i := Row(id, home)];
      }
    } else if rows != [] {
      assert [Row(id, home)] + rows[1..] == rows[0 := Row(id, home)];
    }
  }

  // ----- every unbroken edit keeps the index true -----

  lemma CreateKeepsIndexTrue(d: Disk, id: string, home: Option<string>)
    requires IndexTrue(d)
    ensures IndexTrue(CreateTicket(d, id, home, Nowhere).disk)
  {
    if !Known(d, id) {
      var rows := [Row(id, home)] + d.index.open;
      assert rows[0].id == id;
      assert forall i :: 1 <= i < |rows| ==> rows[i] == d.index.open[i - 1] && rows[i].id != id;
      forall k ensures HasRow(rows, k) <==> k == id || HasRow(d.index.open, k) {
        if HasRow(d.index.open, k) {
          var i :| 0 <= i < |d.index.open| && d.index.open[i].id == k;
          assert rows[i + 1].id == k;
        }
      }
    }
  }

  lemma CloseKeepsIndexTrue(d: Disk, id: string, stuck: set<File>)
    requires IndexTrue(d) && IsOpen(d, id)
    ensures IndexTrue(CloseOpen(d, id, Nowhere, stuck).disk)
  {
    hide Without;
    DropFirstIs(d.index.open, id);
    var rows := DropFirst(d.index.open, id);
    assert forall i :: 0 <= i < |rows| ==> rows[i] in rows;
    forall k ensures HasRow(rows, k) <==> k != id && HasRow(d.index.open, k) {
      if k != id && HasRow(d.index.open, k) {
        var i :| 0 <= i < |d.index.open| && d.index.open[i].id == k;
        assert d.index.open[i] in rows;
      }
    }
  }

  lemma RepointKeepsIndexTrue(d: Disk, id: string, target: Option<string>, newOrder: Option<seq<string>>)
    requires IndexTrue(d)
    ensures IndexTrue(RepointTicket(d, id, target, newOrder, Nowhere).disk)
  {
    hide OpenOnly, Rebound, IndexTrue, RowsDistinct;
    if IsOpen(d, id) && d.open[id].home != target && (target.Some? ==> target.value in d.priorities) {
      OpenHasRow(d, id);
      var i := ReboundIs(d.index.open, id, target);
      var next := Rebound(d.index.open, id, target).value;
      SameIdsSameRows(d.index.open, next);
      RebindKeepsIndexTrue(d, RepointTicket(d, id, target, newOrder, Nowhere).disk, id, target, i);
    }
  }

  lemma SameIdsSameRows(rows: seq<Row>, next: seq<Row>)
    requires |next| == |rows| && forall j :: 0 <= j < |rows| ==> next[j].id == rows[j].id
    ensures RowsDistinct(next) <==> RowsDistinct(rows)
    ensures forall k :: HasRow(next, k) <==> HasRow(rows, k)
  {
    forall k ensures HasRow(next, k) <==> HasRow(rows, k) {
      if HasRow(rows, k) {
        var j :| 0 <= j < |rows| && rows[j].id == k;
        assert next[j].id == k;
      }
    }
  }

  lemma RebindKeepsIndexTrue(d: Disk, t: Disk, id: string, target: Option<string>, i: nat)
    requires IndexTrue(d) && IsOpen(d, id) && i < |d.index.open| && d.index.open[i].id == id
    requires t.open == d.open[id := d.open[id].(home := target)] && t.closed == d.closed
    requires t.index == d.index.(open := d.index.open[i := Row(id, target)])
    requires forall k :: HasRow(t.index.open, k) <==> HasRow(d.index.open, k)
    ensures IndexTrue(t)
  {
    hide HasRow;
  }

  lemma OpenHasRow(d: Disk, id: string)
    requires IndexTrue(d) && IsOpen(d, id)
    ensures HasRow(d.index.open, id)
  {
  }

  /** A full reconciliation makes index and order true, whatever they were, of the open tickets. */
  lemma ReconcileMakesTrue(d: Disk, listing: seq<string>)
    requires forall k :: k in listing <==> k in d.open
    requires forall id :: id in d.closed ==> id in d.index.closed
    ensures var done := ReconcileTickets(d, listing, Nowhere).disk; IndexTrue(done) && OrderTrue(done)
  {
    hide Before, ReconcileTickets;
    var n := ReconciledNamesOpenOnce(d, listing);
    var done := ReconcileTickets(d, listing, Nowhere).disk;
    forall k ensures k in d.open <==> HasRow(done.index.open, k) {
      if k in d.open {
        var i :| 0 <= i < |done.order| && done.order[i] == k;
        assert done.index.open[i].id == k;
      }
    }
  }

  /** Every unbroken edit, with a full listing at hand, leaves the index as true as it was. */
  lemma EditKeepsIndexTrue(d: Disk, a: Action, v: Verdict)
    requires IndexTrue(d) && v.breaks.Nowhere? && (a.TicketReconcile? ==> forall k :: k in v.listing <==> k in d.open)
    ensures IndexTrue(Apply(d, a, v).disk)
  {
    hide IndexTrue, CreateTicket, CloseOpen, RepointTicket, ReconcileTickets;
    match a
    case TicketCreate(id, home) => CreateKeepsIndexTrue(d, id, home);
    case TicketClose(id) =>
      if IsOpen(d, id) {
        CloseKeepsIndexTrue(d, id, v.stuck);
      }
    case TicketRepoint(id, target, newOrder) => RepointKeepsIndexTrue(d, id, target, newOrder);
    case TicketReconcile =>
      ClosedRows(d);
      ReconcileMakesTrue(d, v.listing);
    case TicketReorder(order) => SameIndexTrue(d, Apply(d, a, v).disk);
    case PriorityCreate(id) => SameIndexTrue(d, Apply(d, a, v).disk);
  }

  lemma ClosedRows(d: Disk)
    requires IndexTrue(d)
    ensures forall id :: id in d.closed ==> id in d.index.closed
  {
  }

  lemma SameIndexTrue(d: Disk, t: Disk)
    requires IndexTrue(d) && t.index == d.index && t.open == d.open && t.closed == d.closed
    ensures IndexTrue(t)
  {
  }

  // ----- the files -----

  /** The ticket an edit is of. */
  function TicketOf(a: Action): Option<string> {
    match a
    case TicketCreate(id, _) => Some(id)
    case TicketClose(id) => Some(id)
    case TicketRepoint(id, _, _) => Some(id)
    case _ => None
  }

  /** Wherever it breaks, an edit leaves every other ticket's files and the priorities' alone. */
  lemma OthersUntouched(d: Disk, a: Action, v: Verdict, id: string)
    requires TicketOf(a) != Some(id)
    ensures var t := Apply(d, a, v).disk;
            && (id in t.open <==> id in d.open) && (id in d.open ==> t.open[id] == d.open[id])
            && (id in t.closed <==> id in d.closed) && (id in d.closed ==> t.closed[id] == d.closed[id])
            && (!a.PriorityCreate? ==>
                  t.priorities == d.priorities && t.asides == d.asides && t.ranking == d.ranking && t.rankingDraft == d.rankingDraft)
            && (a.PriorityCreate? ==> t.index == d.index && t.order == d.order && t.draft == d.draft)
  {
    hide Without, OpenOnly, RowClosed, RowRebound, Settled, SettledIndex, Known, PriorityTaken;
  }

  /** Without a break, exactly these edits are made: a create of an id that no file, no row and no place in
      the order has; a close let through of an open ticket; a repoint of an open ticket away from where it
      is, to a priority there is; a priority whose name, in any case, is free; and every other edit. */
  lemma MadeIff(d: Disk, a: Action, v: Verdict)
    requires v.breaks.Nowhere?
    ensures Apply(d, a, v).error.None?
            <==> match a
                 case TicketCreate(id, _) =>
                   && id !in d.open && id !in d.closed && id !in d.order && id !in d.index.closed
                   && forall i :: 0 <= i < |d.index.open| ==> d.index.open[i].id != id
                 case TicketClose(id) => id in d.open && !v.gateBlocks
                 case TicketRepoint(id, target, _) =>
                   id in d.open && d.open[id].home != target && (target.Some? ==> target.value in d.priorities)
                 case PriorityCreate(id) => forall p :: p in d.priorities ==> Lower(p) != Lower(id)
                 case _ => true
  {
    hide RowClosed, RowRebound, Settled, SettledIndex, Without, OpenOnly;
  }

  /** An edit that does not throw: a create files its ticket unresolved under its priority; a close moves the
      file with its priority, resolved once more; a repoint changes nothing of the file but its priority. */
  lemma UnbrokenFiles(d: Disk, a: Action, v: Verdict, id: string)
    requires TicketOf(a) == Some(id) && Apply(d, a, v).error.None?
    ensures var t := Apply(d, a, v).disk;
            match a
            case TicketCreate(_, home) =>
              && id in t.open && t.open[id] == TicketFile(home, 0) && id !in t.closed
              && id in t.order && exists i :: 0 <= i < |t.index.open| && t.index.open[i] == Row(id, home)
            case TicketClose(_) =>
              && id in d.open && id !in t.open && id !in t.order && id in t.index.closed
              && id in t.closed && t.closed[id].home == d.open[id].home && t.closed[id].resolutions == d.open[id].resolutions + 1
            case TicketRepoint(_, target, newOrder) =>
              && id in d.open && id in t.open && t.open[id].home == target && t.open[id].resolutions == d.open[id].resolutions
              && (newOrder.None? ==> id in t.order)
              && (newOrder.Some? ==> t.draft.None? && forall k :: k in t.order <==> k in newOrder.value && k in d.open)
            case _ => true
  {
    hide RowRebound, Names, PriorityTaken;
    if a.TicketCreate? {
      assert Apply(d, a, v).disk.index.open[0] == Row(id, a.home);
    }
  }

  /** A created priority joins the others, and what was missing in the ranking is appended to it, by a draft
      that is gone afterwards; with nothing missing, an older draft stays. */
  lemma UnbrokenPriority(d: Disk, id: string, v: Verdict, p: string)
    requires Apply(d, PriorityCreate(id), v).error.None?
    ensures var t := Apply(d, PriorityCreate(id), v).disk;
            && (p in t.priorities <==> p in d.priorities || p == id)
            && d.ranking <= t.ranking && t.ranking[|d.ranking|..] == v.registers && t.asides == d.asides
            && (t.rankingDraft.Some? <==> d.rankingDraft.Some? && v.registers == [])
            && (t.rankingDraft.Some? ==> t.rankingDraft == d.rankingDraft)
  {
  }

  /** And of a ticket's rows: a close puts the id on top of the closed rows where it is not among them; a repoint binds
      the first row of the ticket, or puts one on top where there was none, and keeps every other as it was. */
  lemma UnbrokenRows(d: Disk, a: Action, v: Verdict, id: string)
    requires TicketOf(a) == Some(id) && Apply(d, a, v).error.None?
    ensures var t := Apply(d, a, v).disk;
            match a
            case TicketClose(_) =>
              if id in d.index.closed then t.index.closed == d.index.closed
              else t.index.closed != [] && t.index.closed[0] == id && t.index.closed[1..] == d.index.closed
            case TicketRepoint(_, target, _) =>
              && t.index.closed == d.index.closed
              && var rows := if HasRow(d.index.open, id) then d.index.open else [Row(id, None)] + d.index.open;
                 exists i :: 0 <= i < |rows| && rows[i].id == id && (forall j :: 0 <= j < i ==> rows[j].id != id)
                             && t.index.open == rows[i := Row(id, target)]
            case _ => true
  {
    hide OpenOnly, Known, Names, PriorityTaken, Rebound, HasRow;
    if a.TicketRepoint? {
      var i := ReboundIs(d.index.open, id, a.target);
      assert ([Row(id, None)] + d.index.open)[0 := Row(id, a.target)] == [Row(id, a.target)] + d.index.open;
    }
  }

  // ----- and the order -----

  /** An unbroken edit leaves the order true exactly when the order it writes, if it writes a requested one,
      names every open ticket once among the open ones. */
  lemma EditKeepsOrderTrueIff(d: Disk, a: Action, v: Verdict)
    requires OrderTrue(d) && v.breaks.Nowhere? && (a.TicketReconcile? ==> forall k :: k in v.listing <==> k in d.open)
    requires a.TicketRepoint? && a.newOrder.Some? ==> !Refuses(d, a, v)
    ensures OrderTrue(Apply(d, a, v).disk)
            <==> match a
                 case TicketReorder(order) => NamesOpenOnce(d, order)
                 case TicketRepoint(_, _, newOrder) => newOrder.Some? ==> NamesOpenOnce(d, newOrder.value)
                 case _ => true
  {
    hide Distinct, Without, OpenOnly, RowClosed, RowRebound, Settled, SettledIndex, NamesOpenOnce;
    match a
    case TicketCreate(id, home) =>
      if !Known(d, id) {
        DistinctSnoc(d.order, id);
      }
    case TicketClose(id) => DistinctWithout(d.order, id);
    case TicketRepoint(id, target, newOrder) =>
      if newOrder.Some? {
        RequestedIsTrue(d, newOrder.value);
      }
    case TicketReconcile =>
      var n := ReconciledNamesOpenOnce(d, v.listing);
    case TicketReorder(order) => RequestedIsTrue(d, order);
    case PriorityCreate(_) =>
  }

  /** Every open ticket is requested, and once. */
  ghost predicate NamesOpenOnce(d: Disk, order: seq<string>) {
    forall k :: k in d.open ==> multiset(order)[k] == 1
  }

  lemma RequestedIsTrue(d: Disk, order: seq<string>)
    ensures Distinct(OpenOnly(order, d.open)) && (forall k :: k in OpenOnly(order, d.open) <==> k in d.open)
            <==> NamesOpenOnce(d, order)
  {
    var kept := OpenOnly(order, d.open);
    forall k | k in d.open ensures multiset(kept)[k] == multiset(order)[k] {
      FilterCounts(order, j => j in d.open, k);
    }
    DistinctIffOnce(kept);
    if NamesOpenOnce(d, order) {
      forall k | k in d.open ensures k in kept {
        assert k in multiset(order);
      }
    }
    if Distinct(kept) && forall k :: k in kept <==> k in d.open {
      forall k | k in d.open ensures multiset(order)[k] == 1 {
        assert k in kept && multiset(kept)[k] == 1;
      }
    }
  }

  lemma {:induction false} DistinctIffOnce(s: seq<string>)
    ensures Distinct(s) <==> forall k :: k in s ==> multiset(s)[k] == 1
  {
    if s != [] {
      var front, last := s[..|s| - 1], s[|s| - 1];
      DistinctIffOnce(front);
      assert s == front + [last];
      assert forall k :: multiset(s)[k] == multiset(front)[k] + if k == last then 1 else 0;
      if Distinct(s) {
        assert Distinct(front) && last !in front;
        assert last !in multiset(front);
      }
      if forall k :: k in s ==> multiset(s)[k] == 1 {
        assert last in s && last !in multiset(front);
        forall k | k in front ensures multiset(front)[k] == 1 {
          assert k in s && k in multiset(front);
        }
      }
    }
  }

  lemma DistinctSnoc(s: seq<string>, x: string)
    requires Distinct(s) && x !in s
    ensures Distinct(s + [x])
  {
  }

  lemma {:induction false} DistinctWithout(s: seq<string>, x: string)
    requires Distinct(s)
    ensures Distinct(Without(s, x)) && forall k :: k in Without(s, x) <==> k in s && k != x
  {
    if s != [] {
      var front, last := s[..|s| - 1], s[|s| - 1];
      assert s == front + [last];
      DistinctWithout(front, x);
      assert last !in front;
    }
  }
}
