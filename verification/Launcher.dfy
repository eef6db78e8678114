/** The daemon context that holds the run slots: launching, resuming, settling, booting, and the
    direct-or-queued branch of governance edits (packages/daemon/src/launcher.ts,
    packages/daemon/src/routes.ts). Each method runs without another request in between. */
module Launcher {
  import opened Outcomes
  import opened Governance
  import opened GovernanceGuards
  import opened AuthoringQueue
  import opened RunSlots
  import opened RunSlotTheorems

  datatype Target = PriorityTarget(id: string) | TicketTarget(id: string)

  const ADHOC := "adhoc-session"

  datatype WorkspaceLookup = WorkspacesUnreadable | UnknownWorkspace | KnownWorkspace

  datatype TicketLookup = TicketsUnreadable | UnknownTicket | ClosedTicket | OpenTicket

  /** What a launch learns outside the slots: the configured ceiling, registry and ticket lookups, the
      runner-impact and staleness verdicts, and the run id `runRun` creates (None: it threw first). */
  datatype World = World(
    limit: nat, workspace: WorkspaceLookup, ticket: TicketLookup, pendingClose: bool, assembles: bool,
    independent: bool, impacts: bool, allowSelfImpacting: bool, stale: bool, created: Option<string>)

  /** A launch that must be accepted. */
  predicate Admissible(s: State, ws: string, target: Target, task: string, resume: Option<string>, w: World) {
    && ws != "" && target.id != "" && (target == PriorityTarget(ADHOC) ==> task != "")
    && ws !in s.inFlight && |s.inFlight| < w.limit
    && w.assembles && !w.stale && (resume.Some? || w.created.Some?)
    && match target {
         case PriorityTarget(_) => !w.independent && (!w.impacts || w.allowSelfImpacting)
         case TicketTarget(_) => w.workspace.KnownWorkspace? && w.ticket.OpenTicket? && !w.pendingClose
       }
  }

  /** A lookup of a ticket launch throws; nothing catches it and the slot is not given back. */
  predicate LookupThrows(target: Target, w: World) {
    target.TicketTarget? && (w.workspace.WorkspacesUnreadable? || (w.workspace.KnownWorkspace? && w.ticket.TicketsUnreadable?))
  }

  /** The run a launch hands its slot to. */
  function RunOf(resume: Option<string>, w: World): string {
    if resume.Some? then resume.value else if w.created.Some? then w.created.value else ""
  }

  class OzContext {
    var inFlight: map<string, Slot>
    var stopControllers: set<string>
    var runs: map<string, RunRow>
    var lanes: map<string, Lane>
    var restarts: nat
    ghost var drivers: map<string, string>
    ghost var launches: map<nat, Launch>
    ghost var ceiling: nat

    /** The context between two requests; the launches half-way are those that threw. */
    ghost function View(): State
      reads this
    {
      State(inFlight, stopControllers, drivers, launches, runs, ceiling, lanes)
    }

    /** A fresh daemon over the runs and queues its predecessor left. */
    constructor (storedRuns: map<string, RunRow>, storedLanes: map<string, Lane>)
      ensures View() == State(map[], {}, map[], map[], storedRuns, 0, storedLanes) && restarts == 0
    {
      inFlight, stopControllers, drivers, launches := map[], {}, map[], map[];
      runs, lanes, ceiling, restarts := storedRuns, storedLanes, 0, 0;
    }

    /** Boot reconciliation: every run still marked running was stranded by the last daemon. */
    method ReconcileOrphans(listed: seq<string>)
      requires inFlight == map[] && stopControllers == {} && drivers == map[] && launches == map[]
      requires forall r :: r in listed <==> r in runs
      modifies this`runs
      ensures View() == Next(old(View()), Boot) && SlotsTrue(View())
    {
      for i := 0 to |listed|
        invariant runs.Keys == old(runs).Keys
        invariant forall r :: r in runs ==>
                    runs[r] == if r in listed[..i] && old(runs)[r].status.Running? then old(runs)[r].(status := FailedRun)
                               else old(runs)[r]
      {
        var r := listed[i];
        assert listed[..i + 1] == listed[..i] + [r];
        if runs[r].status.Running? {
          runs := runs[r := runs[r].(status := FailedRun)];
        }
      }
      assert listed[..|listed|] == listed;
      BootEstablishesSlots(old(View()), Boot);
    }

    /** Launch a run, by a name `n` no launch half-way has. Every refusal leaves the slots as they were; an
        acceptance is the three moves of a launch with nothing in between; a lookup that throws, answered
        with 500, leaves the launch at its reservation. */
    method LaunchRun(ghost n: nat, ws: string, target: Target, task: string, resume: Option<string>, w: World)
      returns (status: nat)
      requires SlotsTrue(View()) && n !in launches
      requires resume.None? && w.created.Some? ==> w.created.value !in runs
      requires resume.Some? ==> resume.value in runs && runs[resume.value] == RunRow(ws, Held) && resume.value !in drivers
      modifies this
      ensures SlotsTrue(View())
      ensures status == Answer(old(View()), ws, target, task, resume, w)
      ensures status == 202 <==> Admissible(old(View()), ws, target, task, resume, w)
      ensures status == 500 <==> Sticks(old(View()), ws, target, w)
      ensures status == 202 ==>
                Launched(old(View()), ws, w.limit, resume, RunOf(resume, w), View())
      ensures status == 500 ==> View() == ReservedState(old(View()), n, ws, w.limit)
      ensures status != 202 && status != 500 ==> Unmoved(old(View()), View())
      ensures restarts == old(restarts) + (if status == 425 && inFlight == map[] then 1 else 0)
    {
      hide SlotsTrue, Admissible, Launched, ReservedState, Answer;
      ghost var before := View();
      status := ReserveAndLaunch(n, ws, target, task, resume, w);
      AdmissibleIff(before, ws, target, task, resume, w);
      SticksIff(before, ws, target, task, resume, w);
      if status == 500 {
        ReservationKeepsSlots(before, n, ws, w.limit);
      } else {
        LaunchKeepsSlots(before, n, ws, w.limit, resume, RunOf(resume, w), View());
      }
    }

    /** Reserve the slot, assemble, and either hand it to the run or give it back. */
    method ReserveAndLaunch(ghost n: nat, ws: string, target: Target, task: string, resume: Option<string>, w: World)
      returns (status: nat)
      requires n !in launches
      requires resume.None? && w.created.Some? ==> w.created.value !in runs
      requires resume.Some? ==> resume.value in runs && runs[resume.value] == RunRow(ws, Held) && resume.value !in drivers
      modifies this
      ensures status == Answer(old(View()), ws, target, task, resume, w)
      ensures status == 202 ==>
                Launched(old(View()), ws, w.limit, resume, RunOf(resume, w), View())
      ensures status == 500 ==> View() == ReservedState(old(View()), n, ws, w.limit)
      ensures status != 202 && status != 500 ==> Unmoved(old(View()), View())
      ensures restarts == old(restarts) + (if status == 425 && inFlight == map[] then 1 else 0)
    {
      hide Launched, Assembled;
      if ws == "" || target.id == "" {
        return 400;
      }
      if target == PriorityTarget(ADHOC) && task == "" {
        return 400;
      }
      if ws in inFlight {
        return 409;
      }
      if |inFlight| >= w.limit {
        return 409;
      }
      ghost var before := View();
      inFlight := inFlight[ws := Pending];
      launches := launches[n := Reserved(ws)];
      ceiling := if w.limit > ceiling then w.limit else ceiling;
      status := Assemble(n, ws, target, resume, w, before);
    }

    /** What follows the reservation: a lookup throws, a refusal gives the slot back, or the run gets it. */
    method Assemble(ghost n: nat, ws: string, target: Target, resume: Option<string>, w: World, ghost before: State)
      returns (status: nat)
      requires n !in before.launches && ws !in before.inFlight && |before.inFlight| < w.limit
      requires View() == ReservedState(before, n, ws, w.limit)
      requires resume.None? && w.created.Some? ==> w.created.value !in runs
      requires resume.Some? ==> resume.value in runs && runs[resume.value] == RunRow(ws, Held) && resume.value !in drivers
      modifies this
      ensures status == Assembled(target, resume, w)
      ensures status == 202 ==> Launched(before, ws, w.limit, resume, RunOf(resume, w), View())
      ensures status == 500 ==> View() == ReservedState(before, n, ws, w.limit)
      ensures status != 202 && status != 500 ==>
                View() == before.(ceiling := if w.limit > before.ceiling then w.limit else before.ceiling)
      ensures restarts == old(restarts) + (if status == 425 && inFlight == map[] then 1 else 0)
    {
      hide Refusal, Launched, LookupThrows, ReservedState;
      RefusalsAreOthers(target, w);
      if LookupThrows(target, w) {
        return 500;
      }
      var refusal := Refusal(target, w);
      if refusal == 0 && resume.None? && w.created.None? {
        refusal := 422;
      }
      if refusal != 0 {
        GiveBack(n, ws, refusal, before, w.limit);
        return refusal;
      }
      HandOver(n, ws, resume, RunOf(resume, w), before, w.limit);
      status := 202;
    }

    /** A launch turned away after the reservation frees its slot. */
    method GiveBack(ghost n: nat, ws: string, refusal: nat, ghost before: State, ghost limit: nat)
      requires n !in before.launches && ws !in before.inFlight && |before.inFlight| < limit
      requires View() == ReservedState(before, n, ws, limit)
      modifies this`inFlight, this`launches, this`restarts
      ensures View() == before.(ceiling := if limit > before.ceiling then limit else before.ceiling)
      ensures restarts == old(restarts) + (if refusal == 425 && inFlight == map[] then 1 else 0)
    {
      GivenBack(before, n, ws, limit);
      inFlight := inFlight - {ws};
      launches := launches - {n};
      if refusal == 425 && |inFlight| == 0 {
        restarts := restarts + 1;
      }
    }

    /** The run exists: its slot, stop controller and lifecycle go to it. */
    method HandOver(ghost n: nat, ws: string, resume: Option<string>, runId: string, ghost before: State, ghost limit: nat)
      requires n !in before.launches && ws !in before.inFlight && |before.inFlight| < limit
      requires if resume.None? then runId !in runs
               else runId in runs && runs[runId] == RunRow(ws, Held) && runId !in drivers
      requires View() == ReservedState(before, n, ws, limit)
      modifies this
      ensures Launched(before, ws, limit, resume, runId, View())
      ensures lanes == old(lanes) && restarts == old(restarts)
    {
      hide Launched;
      HandedOver(before, n, ws, limit, resume, runId);
      if resume.None? {
        runs := runs[runId := RunRow(ws, Running)];
      }
      inFlight := inFlight[ws := Live(runId)];
      stopControllers := stopControllers + {runId};
      drivers := drivers[runId := ws];
      launches := launches - {n};
    }

    /** Resume a held run through the launch path: accepted exactly when the run is held, its workspace has
        no slot taken and the launch is admissible. */
    method ResumeRun(ghost n: nat, runId: string, target: Target, w: World) returns (status: nat)
      requires SlotsTrue(View()) && n !in launches
      modifies this
      ensures SlotsTrue(View()) && lanes == old(lanes)
      ensures status == 404 <==> runId !in old(runs)
      ensures status == 202 <==>
                && runId in old(runs) && old(runs)[runId].status.Held? && old(runs)[runId].workspace !in old(inFlight)
                && Admissible(old(View()), old(runs)[runId].workspace, target, "", Some(runId), w)
      ensures status == 500 <==>
                && runId in old(runs) && old(runs)[runId].status.Held?
                && Sticks(old(View()), old(runs)[runId].workspace, target, w)
      ensures runId in old(runs) ==>
                status == if !old(runs)[runId].status.Held? || old(runs)[runId].workspace in old(inFlight) then 409
                          else Answer(old(View()), old(runs)[runId].workspace, target, "", Some(runId), w)
      ensures status == 202 ==>
                && runId in old(runs) && old(runs)[runId].status.Held? && old(runs)[runId].workspace !in old(inFlight)
                && Launched(old(View()), old(runs)[runId].workspace, w.limit, Some(runId), runId, View())
      ensures status == 500 ==>
                && runId in old(runs) && LookupThrows(target, w)
                && View() == ReservedState(old(View()), n, old(runs)[runId].workspace, w.limit)
      ensures status != 202 && status != 500 ==> Unmoved(old(View()), View())
    {
      hide Admissible, LaunchesTrue, Answer;
      ghost var before := View();
      AnswerStatuses(before, if runId in runs then runs[runId].workspace else "", target, "", Some(runId), w);
      if runId !in runs {
        return 404;
      }
      if !runs[runId].status.Held? {
        return 409;
      }
      if runs[runId].workspace in inFlight {
        return 409;
      }
      status := LaunchRun(n, runs[runId].workspace, target, "", Some(runId), w);
    }

    /** A run's promise settles: drain its workspace's queue, then free the slot. A drain that throws, where
        `life` ends, is recorded and the slot freed all the same. */
    method SettleRun(ws: string, runId: string, status: RunStatus, world: AuthoringQueue.World, life: Life)
      requires SlotsTrue(View()) && runId in drivers && drivers[runId] == ws && !status.Running?
      modifies this
      ensures View() == Next(old(View()), Settle(runId, status, world, life)) && SlotsTrue(View())
      ensures ws !in inFlight && runId !in stopControllers
    {
      hide SlotsTrue, Drain;
      DrivenRunExists(View(), runId);
      MoveKeepsSlotsIff(View(), Settle(runId, status, world, life));
      runs := runs[runId := runs[runId].(status := status)];
      var lane := if ws in lanes then lanes[ws] else NO_LANE;
      lanes := lanes[ws := Drain(lane, world, life).lane];
      inFlight := inFlight - {ws};
      stopControllers := stopControllers - {runId};
      drivers := drivers - {runId};
    }

    /** A governance edit from a request: a close is refused while its gate blocks; otherwise the edit is
        queued while the workspace has a slot taken, and made at once when it has none. */
    method AuthorEdit(ws: string, entry: Entry, verdict: Verdict) returns (status: nat)
      requires SlotsTrue(View()) && MayEnqueue(LaneOf(View(), ws).file, entry)
      modifies this`lanes
      ensures View() == Next(old(View()), Author(ws, entry, verdict)) && SlotsTrue(View())
      ensures status == 202 <==> ws in inFlight && !(entry.action.TicketClose? && verdict.gateBlocks)
      ensures entry.action.TicketClose? && verdict.gateBlocks ==> status == 409
      ensures ws !in inFlight ==> status == DirectStatus(LaneOf(old(View()), ws).disk, entry.action, verdict)
      ensures status == 202 ==> LaneOf(View(), ws).disk == LaneOf(old(View()), ws).disk
      ensures status != 202 ==> LaneOf(View(), ws).file == LaneOf(old(View()), ws).file
    {
      hide SlotsTrue, Direct, DirectStatus, MayEnqueue, Next, Enabled, WithDisk;
      AuthorMoves(View(), ws, entry, verdict);
      DirectStatusIff(LaneOf(View(), ws).disk, entry.action, verdict);
      if entry.action.TicketClose? && verdict.gateBlocks {
        return 409;
      }
      var lane := if ws in lanes then lanes[ws] else NO_LANE;
      if ws in inFlight {
        lanes := lanes[ws := lane.(file := lane.file + [entry])];
        return 202;
      }
      lanes := lanes[ws := WithDisk(lane, Direct(lane.disk, entry.action, true, verdict))];
      status := DirectStatus(lane.disk, entry.action, verdict);
    }
  }

  function Landed(commits: bool, yes: nat, no: nat): nat {
    if commits then yes else no
  }

  /** What a request for an edit made at once is answered with. */
  function DirectStatus(d: Disk, a: Action, v: Verdict): nat {
    match a
    case TicketCreate(id, _) =>
      if Known(d, id) then 409 else if v.breaks.At? then 500 else Landed(v.commits, 201, 502)
    case PriorityCreate(id) =>
      if PriorityTaken(d, id) then 409 else if !Made(v.breaks, 4) then 500 else Landed(v.commits, 201, 502)
    case TicketReorder(_) => if !Made(v.breaks, 2) then 500 else Landed(v.commits, 200, 502)
    case TicketClose(id) =>
      if v.gateBlocks then 409
      else if IsOpen(d, id) then if !Made(v.breaks, 4) then 500 else Landed(v.commits, 200, 500)
      else if !Made(v.breaks, 1) then 500
      else if id !in d.order then 409
      else Landed(v.commits, 200, 500)
    case TicketRepoint(_, _, _) =>
      if Refuses(d, a, v) then 409 else if Breaks(a, v.breaks) then 500 else Landed(v.commits, 200, 500)
    case TicketReconcile =>
      if !Made(v.breaks, 2) then 500
      else if SettledIndex(d, v.listing) == d.index && Settled(d, v.listing) == d.order then 200
      else Landed(v.commits, 200, 500)
  }

  /** The answer by what the edit came to: a success exactly where it did not throw and landed, where a
      reconciliation had nothing to change, and where a close that found no open ticket pruned the order and
      landed; a conflict exactly where a guard turned it away and nothing was pruned; a bad gateway exactly
      where a create or an order was written and did not land; and an error otherwise. */
  lemma DirectStatusIff(d: Disk, a: Action, v: Verdict)
    ensures var made := Apply(d, a, v);
            var status := DirectStatus(d, a, v);
            var creates := a.TicketCreate? || a.PriorityCreate?;
            var prunes := a.TicketClose? && !v.gateBlocks && a.ticketId !in d.open && (a.ticketId in d.order || !Made(v.breaks, 1));
            && (status == 201 <==> creates && made.error.None? && v.commits)
            && (status == 200 <==> !creates && ((made.error.None? && (v.commits || (a.TicketReconcile? && made.disk == d)))
                                               || (prunes && Made(v.breaks, 1) && v.commits)))
            && (status == 409 <==> Refuses(d, a, v) && !prunes)
            && (status == 502 <==> (creates || a.TicketReorder?) && made.error.None? && !v.commits)
            && status in {200, 201, 409, 500, 502}
  {
    hide RowClosed, RowRebound, Settled, SettledIndex, Without, OpenOnly, Known, PriorityTaken, CloseOpen, Names;
    ThrowsIff(d, a, v);
    ChangesIff(d, a, v);
  }

  lemma AuthorMoves(s: State, ws: string, e: Entry, v: Verdict)
    requires SlotsTrue(s) && MayEnqueue(LaneOf(s, ws).file, e)
    ensures Enabled(s, Author(ws, e, v))
    ensures var lane := if ws in s.lanes then s.lanes[ws] else NO_LANE;
            var t := Next(s, Author(ws, e, v));
            && SlotsTrue(t)
            && t == s.(lanes := if e.action.TicketClose? && v.gateBlocks then s.lanes
                                else if ws in s.inFlight then s.lanes[ws := lane.(file := lane.file + [e])]
                                else s.lanes[ws := WithDisk(lane, Direct(lane.disk, e.action, true, v))])
            && (if ws in s.inFlight then LaneOf(t, ws).disk == LaneOf(s, ws).disk else LaneOf(t, ws).file == LaneOf(s, ws).file)
            && (e.action.TicketClose? && v.gateBlocks ==> LaneOf(t, ws) == LaneOf(s, ws))
  {
    hide SlotsTrue, Direct, MayEnqueue, Losses;
    MoveKeepsSlotsIff(s, Author(ws, e, v));
  }

  /** Why a reserved launch is turned away; 0 when it is not. */
  function Refusal(target: Target, w: World): nat {
    match target
    case PriorityTarget(_) =>
      if !w.assembles then 400
      else if w.independent then 409
      else if w.impacts && !w.allowSelfImpacting then 409
      else if w.stale then 425 else 0
    case TicketTarget(_) =>
      if w.workspace.UnknownWorkspace? then 400
      else if w.ticket.UnknownTicket? then 400
      else if w.ticket.ClosedTicket? then 400
      else if w.pendingClose then 409
      else if !w.assembles then 400
      else if w.stale then 425 else 0
  }

  /** The status of a launch, by the first thing that stands against it. */
  function Answer(s: State, ws: string, target: Target, task: string, resume: Option<string>, w: World): nat {
    if ws == "" || target.id == "" then 400
    else if target == PriorityTarget(ADHOC) && task == "" then 400
    else if ws in s.inFlight then 409
    else if |s.inFlight| >= w.limit then 409
    else Assembled(target, resume, w)
  }

  /** The same, of a launch that has its reservation. */
  function Assembled(target: Target, resume: Option<string>, w: World): nat {
    if LookupThrows(target, w) then 500
    else if Refusal(target, w) != 0 then Refusal(target, w)
    else if resume.None? && w.created.None? then 422
    else 202
  }

  /** What each status says: 400 of a request without a name, a task or anything to launch; 409 of one that
      another run, the ceiling, the runner's own code or a pending close stands against; 425 of one that
      only a stale daemon stands against; 422 of one whose run was not created. */
  lemma AnswerStatuses(s: State, ws: string, target: Target, task: string, resume: Option<string>, w: World)
    ensures var status := Answer(s, ws, target, task, resume, w);
            var named := ws != "" && target.id != "" && (target == PriorityTarget("adhoc-session") ==> task != "");
            var free := ws !in s.inFlight && |s.inFlight| < w.limit;
            var found := match target {
                case PriorityTarget(_) => true
                case TicketTarget(_) => w.workspace.KnownWorkspace? && w.ticket.OpenTicket?
              };
            var held := match target {
                case PriorityTarget(_) => w.assembles && (w.independent || (w.impacts && !w.allowSelfImpacting))
                case TicketTarget(_) => found && w.pendingClose
              };
            var ready := named && free && found && w.assembles && !held;
            && (status == 425 <==> ready && w.stale)
            && (status == 422 <==> ready && !w.stale && resume.None? && w.created.None?)
            && (status == 202 <==> ready && !w.stale && (resume.Some? || w.created.Some?))
            && (status == 409 <==> named && (!free || held))
            && (status == 500 <==> named && free && target.TicketTarget?
                                   && (w.workspace.WorkspacesUnreadable?
                                       || (w.workspace.KnownWorkspace? && w.ticket.TicketsUnreadable?)))
            && status in {202, 400, 409, 422, 425, 500}
  {
  }

  lemma RefusalsAreOthers(target: Target, w: World)
    ensures Refusal(target, w) != 202 && Refusal(target, w) != 500
  {
  }

  lemma AdmissibleIff(s: State, ws: string, target: Target, task: string, resume: Option<string>, w: World)
    ensures Answer(s, ws, target, task, resume, w) == 202 <==> Admissible(s, ws, target, task, resume, w)
  {
    RefusalsAreOthers(target, w);
  }

  /** The launch comes to a lookup that throws: its slot stays reserved. */
  predicate Sticks(s: State, ws: string, target: Target, w: World) {
    ws != "" && target.id != "" && ws !in s.inFlight && |s.inFlight| < w.limit && LookupThrows(target, w)
  }

  /** A launch that is neither accepted nor gives its slot back is exactly one whose lookup throws. */
  lemma SticksIff(s: State, ws: string, target: Target, task: string, resume: Option<string>, w: World)
    ensures Answer(s, ws, target, task, resume, w) == 500 <==> Sticks(s, ws, target, w)
  {
  }

  /** An unreadable ticket directory: the launch throws, and no launch of the workspace gets through again. */
  lemma ThrownLookupSticks(w: World, n: nat, again: World, resume: Option<string>, task: string, target: Target)
    requires w.limit > 0 && w.workspace.KnownWorkspace? && w.ticket.TicketsUnreadable?
    ensures var stuck := ReservedState(EMPTY, n, "w", w.limit);
            && Answer(EMPTY, "w", TicketTarget("0001"), "", None, w) == 500
            && SlotsTrue(stuck) && stuck.inFlight == map["w" := Pending]
            && Answer(stuck, "w", target, task, resume, again) in {400, 409}
  {
    assert SlotsTrue(EMPTY);
    ReservationKeepsSlots(EMPTY, n, "w", w.limit);
  }

  /** The three moves of an accepted launch, with nothing in between. */
  ghost predicate Launched(s: State, ws: string, limit: nat, resume: Option<string>, runId: string, t: State) {
    && ws !in s.inFlight && |s.inFlight| < limit
    && (resume.None? ==> runId !in s.runs)
    && (resume.Some? ==> runId in s.runs && s.runs[runId] == RunRow(ws, Held) && runId !in s.drivers)
    && t == s.(inFlight := s.inFlight[ws := Live(runId)], controllers := s.controllers + {runId},
               drivers := s.drivers[runId := ws], ceiling := if limit > s.ceiling then limit else s.ceiling,
               runs := if resume.None? then s.runs[runId := RunRow(ws, Running)] else s.runs)
  }

  lemma GivenBack(s: State, n: nat, ws: string, limit: nat)
    requires n !in s.launches && ws !in s.inFlight
    ensures ReservedState(s, n, ws, limit).inFlight - {ws} == s.inFlight
    ensures ReservedState(s, n, ws, limit).launches - {n} == s.launches
  {
  }

  lemma HandedOver(s: State, n: nat, ws: string, limit: nat, resume: Option<string>, runId: string)
    requires n !in s.launches && ws !in s.inFlight && |s.inFlight| < limit
    requires if resume.None? then runId !in s.runs
             else runId in s.runs && s.runs[runId] == RunRow(ws, Held) && runId !in s.drivers
    ensures Launched(s, ws, limit, resume, runId,
                     State(s.inFlight[ws := Pending][ws := Live(runId)], s.controllers + {runId}, s.drivers[runId := ws],
                           s.launches[n := Reserved(ws)] - {n},
                           if resume.None? then s.runs[runId := RunRow(ws, Running)] else s.runs,
                           if limit > s.ceiling then limit else s.ceiling, s.lanes))
  {
    assert s.launches[n := Reserved(ws)] - {n} == s.launches;
    assert s.inFlight[ws := Pending][ws := Live(runId)] == s.inFlight[ws := Live(runId)];
  }

  /** A refusal changes nothing but, perhaps, the highest ceiling seen. */
  ghost predicate Unmoved(s: State, t: State) {
    t == s.(ceiling := t.ceiling) && t.ceiling >= s.ceiling
  }

  function ReservedState(s: State, n: nat, ws: string, limit: nat): State {
    s.(inFlight := s.inFlight[ws := Pending], launches := s.launches[n := Reserved(ws)],
       ceiling := if limit > s.ceiling then limit else s.ceiling)
  }

  lemma ReservationKeepsSlots(s: State, n: nat, ws: string, limit: nat)
    requires SlotsTrue(s) && n !in s.launches && ws !in s.inFlight && |s.inFlight| < limit
    ensures Path(s, [Check(n, ws), Admit(n, limit)])
    ensures Run(s, [Check(n, ws), Admit(n, limit)]) == ReservedState(s, n, ws, limit)
    ensures SlotsTrue(ReservedState(s, n, ws, limit))
  {
    hide SlotsTrue, LaneOf, Drain, Apply;
    var checked := Next(s, Check(n, ws));
    MoveKeepsSlotsIff(s, Check(n, ws));
    CheckedReservationDoesNotOverlap(s, n, ws, limit);
    MoveKeepsSlotsIff(checked, Admit(n, limit));
    assert checked.launches[n := Reserved(ws)] == s.launches[n := Reserved(ws)];
    RunCons(checked, Admit(n, limit), [], ReservedState(s, n, ws, limit));
    RunCons(s, Check(n, ws), [Admit(n, limit)] + [], checked);
    assert [Check(n, ws)] + ([Admit(n, limit)] + []) == [Check(n, ws), Admit(n, limit)];
  }

  /** A refusal after the reservation is the move that gives the slot back. */
  lemma RefusedLaunchKeepsSlots(s: State, n: nat, ws: string, limit: nat)
    requires SlotsTrue(s) && n !in s.launches && ws !in s.inFlight && |s.inFlight| < limit
    ensures Enabled(ReservedState(s, n, ws, limit), Step.Refuse(n))
    ensures Next(ReservedState(s, n, ws, limit), Step.Refuse(n)) == s.(ceiling := if limit > s.ceiling then limit else s.ceiling)
    ensures SlotsTrue(s.(ceiling := if limit > s.ceiling then limit else s.ceiling))
  {
    hide SlotsTrue, Run, Path, LaneOf, Drain, Apply;
    ReservationKeepsSlots(s, n, ws, limit);
    MoveKeepsSlotsIff(ReservedState(s, n, ws, limit), Step.Refuse(n));
    assert s.inFlight[ws := Pending] - {ws} == s.inFlight;
    assert s.launches[n := Reserved(ws)] - {n} == s.launches;
  }

  lemma HandOverIsDrive(s: State, n: nat, ws: string, limit: nat, runId: string, runs: map<string, RunRow>)
    requires n !in s.launches
    ensures Drive(ReservedState(s, n, ws, limit).(runs := runs), n, ws, runId)
            == s.(inFlight := s.inFlight[ws := Live(runId)], controllers := s.controllers + {runId},
                  drivers := s.drivers[runId := ws], ceiling := if limit > s.ceiling then limit else s.ceiling,
                  runs := runs)
  {
    assert s.inFlight[ws := Pending][ws := Live(runId)] == s.inFlight[ws := Live(runId)];
    assert s.launches[n := Reserved(ws)] - {n} == s.launches;
  }

  /** An accepted launch is the reservation followed by the run's creation or its resumption. */
  lemma LaunchedIsThreeMoves(s: State, n: nat, ws: string, limit: nat, resume: Option<string>, runId: string, t: State)
    requires Launched(s, ws, limit, resume, runId, t) && n !in s.launches
    ensures var last := if resume.Some? then Step.Resume(n, runId) else Create(n, runId);
            Enabled(ReservedState(s, n, ws, limit), last) && Next(ReservedState(s, n, ws, limit), last) == t
  {
    hide LaneOf, Drain, Apply;
    HandOverIsDrive(s, n, ws, limit, runId, t.runs);
    assert resume.Some? ==> t.runs == s.runs;
  }

  lemma RunsOf(s: State)
    requires SlotsTrue(s)
    ensures RunsTrue(s.drivers, s.runs)
  {
  }

  lemma DrivenRunExists(s: State, r: string)
    requires SlotsTrue(s) && r in s.drivers
    ensures r in s.runs && s.drivers[r] in s.inFlight
  {
  }

  lemma LaunchKeepsSlots(s: State, n: nat, ws: string, limit: nat, resume: Option<string>, runId: string, t: State)
    requires SlotsTrue(s) && n !in s.launches && (Launched(s, ws, limit, resume, runId, t) || Unmoved(s, t))
    ensures SlotsTrue(t)
  {
    hide SlotsTrue, Run, Path, LaneOf, Drain, Apply, Enabled, Next, RunsTrue;
    if Unmoved(s, t) {
      RunsOf(s);
      SameSlotsTrue(s, t);
    } else {
      ReservationKeepsSlots(s, n, ws, limit);
      LaunchedIsThreeMoves(s, n, ws, limit, resume, runId, t);
      MoveKeepsSlotsIff(ReservedState(s, n, ws, limit), if resume.Some? then Step.Resume(n, runId) else Create(n, runId));
    }
  }
}
