/** Exactly which moves of the run slots change a workspace's governance files, and who may while a run
    holds the slot (packages/daemon/src/launcher.ts, packages/daemon/src/routes.ts,
    packages/core/src/tickets/close.ts). */
module GovernanceFiles {
  import opened Outcomes
  import opened Governance
  import opened GovernanceGuards
  import opened AuthoringQueue
  import opened RunSlots
  import opened RunSlotTheorems

  // ----- moves -----

  function DiskOf(s: State, ws: string): Disk {
    LaneOf(s, ws).disk
  }

  /** The move changes a file of the workspace. */
  ghost predicate Touches(s: State, m: Step, ws: string)
    requires Enabled(s, m)
  {
    match m
    case Author(w, e, v) =>
      && w == ws && ws !in s.inFlight && Edits(DiskOf(s, ws), e.action, true, v)
      && !(e.action.TicketClose? && v.gateBlocks)
    case OwnEdit(r, a, hasCommit, v) => s.drivers[r] == ws && Edits(DiskOf(s, ws), a, hasCommit, v)
    case ConfirmClose(r, id, v) => s.runs[r].workspace == ws && !v.gateBlocks && Closes(DiskOf(s, ws), id, true, v.breaks, v.stuck)
    case BoundaryDrain(r, world, life) => s.drivers[r] == ws && DrainEdits(LaneOf(s, ws), world, life)
    case Settle(r, _, world, life) => s.drivers[r] == ws && DrainEdits(LaneOf(s, ws), world, life)
    case Crash(r, world, life) => s.drivers[r] == ws && DrainEdits(LaneOf(s, ws), world, life)
    case _ => false
  }

  predicate DrainEdits(l: Lane, world: World, life: Life) {
    Drain(l, world, life).lane.disk != l.disk
  }

  lemma SetDiskAt(s: State, w: string, disk: Disk, ws: string)
    ensures DiskOf(SetDisk(s, w, disk), ws) == if w == ws then disk else DiskOf(s, ws)
  {
  }

  lemma DrainLaneAt(s: State, w: string, world: World, life: Life, ws: string)
    ensures DiskOf(DrainLane(s, w, world, life), ws)
            == if w == ws then Drain(LaneOf(s, ws), world, life).lane.disk else DiskOf(s, ws)
  {
    hide Drain;
  }

  lemma SameLanesSameDisk(s: State, t: State, ws: string)
    requires t.lanes == s.lanes
    ensures DiskOf(t, ws) == DiskOf(s, ws)
  {
  }

  lemma AuthorTouchesIff(s: State, w: string, e: Entry, v: Verdict, ws: string)
    requires Enabled(s, Author(w, e, v))
    ensures DiskOf(Next(s, Author(w, e, v)), ws) != DiskOf(s, ws) <==> Touches(s, Author(w, e, v), ws)
  {
    hide Direct, Edits, MayEnqueue;
    if !(e.action.TicketClose? && v.gateBlocks) && w !in s.inFlight {
      SetDiskAt(s, w, Direct(DiskOf(s, w), e.action, true, v), ws);
      EditsIff(DiskOf(s, w), e.action, true, v);
    }
  }

  lemma ConfirmTouchesIff(s: State, r: string, id: string, v: Verdict, ws: string)
    requires Enabled(s, ConfirmClose(r, id, v))
    ensures DiskOf(Next(s, ConfirmClose(r, id, v)), ws) != DiskOf(s, ws) <==> Touches(s, ConfirmClose(r, id, v), ws)
  {
    hide Direct, Closes, LaneOf, IsOpen;
    var w := s.runs[r].workspace;
    if !v.gateBlocks {
      var closed := SetDisk(s, w, Direct(DiskOf(s, w), TicketClose(id), true, v));
      SetDiskAt(s, w, Direct(DiskOf(s, w), TicketClose(id), true, v), ws);
      EditsIff(DiskOf(s, w), TicketClose(id), true, v);
      SameLanesSameDisk(closed, Next(s, ConfirmClose(r, id, v)), ws);
    }
  }

  lemma OwnTouchesIff(s: State, r: string, a: Action, hasCommit: bool, v: Verdict, ws: string)
    requires Enabled(s, OwnEdit(r, a, hasCommit, v))
    ensures DiskOf(Next(s, OwnEdit(r, a, hasCommit, v)), ws) != DiskOf(s, ws)
            <==> Touches(s, OwnEdit(r, a, hasCommit, v), ws)
  {
    hide Direct, Edits, SetDisk;
    SetDiskAt(s, s.drivers[r], Direct(DiskOf(s, s.drivers[r]), a, hasCommit, v), ws);
    EditsIff(DiskOf(s, s.drivers[r]), a, hasCommit, v);
  }

  /** Every other move keeps all lanes. */
  lemma OthersKeepLanes(s: State, m: Step)
    requires Enabled(s, m)
    requires m.Check? || m.Admit? || m.Refuse? || m.Create? || m.Resume? || m.Progress? || m.Finalize? || m.Boot?
    ensures Next(s, m).lanes == s.lanes
  {
    hide LaneOf;
  }

  lemma DrainTouchesIff(s: State, m: Step, ws: string)
    requires Enabled(s, m) && (m.BoundaryDrain? || m.Settle? || m.Crash?)
    ensures DiskOf(Next(s, m), ws) != DiskOf(s, ws) <==> Touches(s, m, ws)
  {
    hide Drain, LaneOf;
    var drained := DrainLane(s, s.drivers[m.runId], m.world, m.life);
    DrainLaneAt(s, s.drivers[m.runId], m.world, m.life, ws);
    SameLanesSameDisk(drained, Next(s, m), ws);
  }

  /** Whatever the move, it changes a workspace's governance files exactly when it is an unblocked edit of a
      workspace without a slot taken, an edit of its own by the run that drives it, an unblocked
      confirmation of a parked run's close, or a drain, and that edit, close or drain changes a file. */
  lemma GovernanceFilesChangeIff(s: State, m: Step, ws: string)
    requires Enabled(s, m)
    ensures DiskOf(Next(s, m), ws) != DiskOf(s, ws) <==> Touches(s, m, ws)
  {
    hide Next, DiskOf, Edits, Closes, DrainEdits, LaneOf, MayEnqueue;
    match m {
      case Author(w, e, v) => AuthorTouchesIff(s, w, e, v, ws);
      case OwnEdit(r, a, hasCommit, v) => OwnTouchesIff(s, r, a, hasCommit, v, ws);
      case ConfirmClose(r, id, v) => ConfirmTouchesIff(s, r, id, v, ws);
      case BoundaryDrain(_, _, _) => DrainTouchesIff(s, m, ws);
      case Settle(_, _, _, _) => DrainTouchesIff(s, m, ws);
      case Crash(_, _, _) => DrainTouchesIff(s, m, ws);
      case _ =>
        OthersKeepLanes(s, m);
        SameLanesSameDisk(s, Next(s, m), ws);
    }
  }

  // ----- while a run holds the slot -----

  /** A move of the run that holds the workspace's slot. */
  ghost predicate OfItsRun(s: State, m: Step, ws: string) {
    (m.OwnEdit? || m.BoundaryDrain? || m.Settle? || m.Crash?) && HoldsSlot(s, m.runId, ws)
  }

  /** While a workspace's slot is taken, its files are changed by anyone but the run in it exactly when the
      founder confirms another run's close and that closes a ticket or prunes the order. */
  lemma ForeignWriteIff(s: State, m: Step, ws: string)
    requires SlotsTrue(s) && Enabled(s, m) && ws in s.inFlight
    ensures DiskOf(Next(s, m), ws) != DiskOf(s, ws) && !OfItsRun(s, m, ws)
            <==> && m.ConfirmClose? && s.runs[m.runId].workspace == ws && !m.verdict.gateBlocks
                 && Closes(DiskOf(s, ws), m.ticketId, true, m.verdict.breaks, m.verdict.stuck)
  {
    hide Next, SlotsTrue, Edits, Closes, DrainEdits, LaneOf, MayEnqueue;
    GovernanceFilesChangeIff(s, m, ws);
    if m.OwnEdit? || m.BoundaryDrain? || m.Settle? || m.Crash? {
      DriverHoldsSlot(s, m.runId);
    }
  }

  /** A run parked on ticket 0001 is confirmed while another run of its workspace is at work: the ticket is
      closed under that run. */
  lemma ConfirmedCloseUnderARun()
    ensures var parked := RunRow("w", AwaitingFounder);
            var disk := NO_DISK.(open := map["0001" := TicketFile(None, 0)], order := ["0001"]);
            var s := EMPTY.(inFlight := map["w" := Live("run_2")], controllers := {"run_2"}, drivers := map["run_2" := "w"],
                            runs := map["run_1" := parked, "run_2" := ROW], ceiling := 1,
                            lanes := map["w" := NO_LANE.(disk := disk)]);
            var m := ConfirmClose("run_1", "0001", FINE);
            && SlotsTrue(s) && Enabled(s, m)
            && !IsOpen(DiskOf(Next(s, m), "w"), "0001") && "0001" in DiskOf(Next(s, m), "w").closed
            && Next(s, m).runs["run_1"].status.Completed? && HoldsSlot(Next(s, m), "run_2", "w")
  {
    var s := EMPTY.(inFlight := map["w" := Live("run_2")]);
    assert |s.inFlight| == 1;
  }
}
