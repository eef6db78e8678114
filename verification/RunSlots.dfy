/** Run slots: one run in flight per workspace under a global ceiling, with the durable queue of each
    workspace beside it (packages/daemon/src/launcher.ts, packages/daemon/src/routes.ts). The machine
    moves between the daemon's await points, so any number of launches may be half-way at once. */
module RunSlots {
  import opened Governance
  import opened AuthoringQueue

  // ----- state -----

  /** A workspace's slot: reserved by a launch, or held by a run. */
  datatype Slot = Pending | Live(runId: string)

  datatype RunStatus = Running | AwaitingFounder | AwaitingArchive | Completed | FailedRun | Stopped | Held

  datatype RunRow = RunRow(workspace: string, status: RunStatus)

  /** How far a launch has come: past the in-flight check, or past the reservation. */
  datatype Launch = Checked(workspace: string) | Reserved(workspace: string)

  datatype State = State(
    inFlight: map<string, Slot>,
    controllers: set<string>,
    drivers: map<string, string>,      // run id to the workspace its lifecycle will free
    launches: map<nat, Launch>,
    runs: map<string, RunRow>,
    ceiling: nat,                      // the highest ceiling a launch was admitted under
    lanes: map<string, Lane>)

  function LaneOf(s: State, ws: string): Lane {
    if ws in s.lanes then s.lanes[ws] else NO_LANE
  }

  // ----- moves -----

  datatype Step =
    | Check(launch: nat, workspace: string)                     // the workspace has no slot
    | Admit(launch: nat, limit: nat)                            // under the ceiling: reserve; else refuse
    | Refuse(launch: nat)                                       // any refusal after the reservation
    | Create(launch: nat, runId: string)                        // the run row is created
    | Resume(launch: nat, runId: string)                        // a held run re-enters its slot
    | Progress(runId: string, status: RunStatus)                // the runner sets its run's status
    | Finalize(runId: string)                                   // a parked run is completed
    | Author(workspace: string, entry: Entry, verdict: Verdict) // a governance edit: direct or queued
    | OwnEdit(runId: string, action: Action, hasCommit: bool, verdict: Verdict)
                                                                // a run closes or files a ticket itself
    | ConfirmClose(runId: string, ticketId: string, verdict: Verdict)
                                                                // the founder confirms a parked run's close
    | BoundaryDrain(runId: string, world: World, life: Life)    // the runner reached a safe commit boundary
    | Settle(runId: string, status: RunStatus, world: World, life: Life)
                                                                // the run ended; its drain throws where life ends
    | Crash(runId: string, world: World, life: Life)            // the daemon died in a run's drain and starts again
    | Boot                                                      // the daemon died elsewhere and starts again

  predicate Finalizable(status: RunStatus) {
    status.AwaitingFounder? || status.AwaitingArchive?
  }

  ghost predicate Enabled(s: State, m: Step) {
    match m
    case Check(n, ws) => n !in s.launches && ws !in s.inFlight
    case Admit(n, _) => n in s.launches && s.launches[n].Checked?
    case Refuse(n) => n in s.launches && s.launches[n].Reserved?
    case Create(n, r) => n in s.launches && s.launches[n].Reserved? && r !in s.runs
    case Resume(n, r) =>
      && n in s.launches && s.launches[n].Reserved?
      && r in s.runs && s.runs[r] == RunRow(s.launches[n].workspace, Held) && r !in s.drivers
    case Progress(r, _) => r in s.drivers && r in s.runs
    case Finalize(r) => r in s.runs && Finalizable(s.runs[r].status)
    case Author(ws, e, _) => MayEnqueue(LaneOf(s, ws).file, e)
    case OwnEdit(r, a, _, _) => r in s.drivers && (a.TicketClose? || a.TicketCreate?)
    case ConfirmClose(r, _, _) => r in s.runs && s.runs[r].status.AwaitingFounder? && !HoldsSlot(s, r, s.runs[r].workspace)
    case BoundaryDrain(r, _, _) => r in s.drivers
    case Settle(r, status, _, _) => r in s.drivers && r in s.runs && !status.Running?
    case Crash(r, _, _) => r in s.drivers
    case Boot => true
  }

  function Next(s: State, m: Step): State
    requires Enabled(s, m)
  {
    match m
    case Check(n, ws) => s.(launches := s.launches[n := Checked(ws)])
    case Admit(n, limit) =>
      if |s.inFlight| >= limit then s.(launches := s.launches - {n})
      else
        var ws := s.launches[n].workspace;
        s.(inFlight := s.inFlight[ws := Pending], launches := s.launches[n := Reserved(ws)],
           ceiling := if limit > s.ceiling then limit else s.ceiling)
    case Refuse(n) =>
      s.(inFlight := s.inFlight - {s.launches[n].workspace}, launches := s.launches - {n})
    case Create(n, r) =>
      var ws := s.launches[n].workspace;
      Drive(s.(runs := s.runs[r := RunRow(ws, Running)]), n, ws, r)
    case Resume(n, r) => Drive(s, n, s.launches[n].workspace, r)
    case Progress(r, status) => SetStatus(s, r, status)
    case Finalize(r) => SetStatus(s, r, Completed)
    case Author(ws, e, v) =>
      var lane := LaneOf(s, ws);
      if e.action.TicketClose? && v.gateBlocks then s
      else if ws in s.inFlight then s.(lanes := s.lanes[ws := lane.(file := lane.file + [e])])
      else SetDisk(s, ws, Direct(lane.disk, e.action, true, v))
    case OwnEdit(r, a, hasCommit, v) =>
      SetDisk(s, s.drivers[r], Direct(LaneOf(s, s.drivers[r]).disk, a, hasCommit, v))
    case ConfirmClose(r, id, v) =>
      var ws := s.runs[r].workspace;
      var disk := LaneOf(s, ws).disk;
      if v.gateBlocks then s
      else
        var closed := SetDisk(s, ws, Direct(disk, TicketClose(id), true, v));
        if IsOpen(disk, id) && Made(v.breaks, 4) && v.commits then SetStatus(closed, r, Completed) else closed
    case BoundaryDrain(r, world, life) => DrainLane(s, s.drivers[r], world, life)
    case Settle(r, status, world, life) =>
      var ws := s.drivers[r];
      SetStatus(DrainLane(s, ws, world, life), r, status).(
        inFlight := s.inFlight - {ws}, controllers := s.controllers - {r}, drivers := s.drivers - {r})
    case Crash(r, world, life) => Rebooted(DrainLane(s, s.drivers[r], world, life))
    case Boot => Rebooted(s)
  }

  predicate HoldsSlot(s: State, r: string, ws: string) {
    ws in s.inFlight && s.inFlight[ws] == Live(r)
  }

  function SetDisk(s: State, ws: string, disk: Disk): State {
    s.(lanes := s.lanes[ws := WithDisk(LaneOf(s, ws), disk)])
  }

  function DrainLane(s: State, ws: string, world: World, life: Life): State {
    s.(lanes := s.lanes[ws := Drain(LaneOf(s, ws), world, life).lane])
  }

  /** A new daemon over what the last one stored. */
  function Rebooted(s: State): State {
    s.(inFlight := map[], controllers := {}, drivers := map[], launches := map[],
       runs := map r | r in s.runs :: if s.runs[r].status.Running? then s.runs[r].(status := FailedRun) else s.runs[r])
  }

  /** A run takes over its launch's slot, with a stop controller and a lifecycle. */
  function Drive(s: State, n: nat, ws: string, r: string): State {
    s.(inFlight := s.inFlight[ws := Live(r)], controllers := s.controllers + {r},
       drivers := s.drivers[r := ws], launches := s.launches - {n})
  }

  function SetStatus(s: State, r: string, status: RunStatus): State
    requires r in s.runs
  {
    s.(runs := s.runs[r := s.runs[r].(status := status)])
  }

  // ----- the slot invariant -----

  /** Stop controllers, lifecycles and live slots name the same runs, one slot each. */
  ghost predicate DriversTrue(inFlight: map<string, Slot>, controllers: set<string>, drivers: map<string, string>) {
    && controllers == drivers.Keys
    && (forall r :: r in drivers ==> drivers[r] in inFlight && inFlight[drivers[r]] == Live(r))
    && (forall ws :: ws in inFlight && inFlight[ws].Live? ==>
          inFlight[ws].runId in drivers && drivers[inFlight[ws].runId] == ws)
  }

  /** A lifecycle drives a run of its own workspace, and every running run is driven. */
  ghost predicate RunsTrue(drivers: map<string, string>, runs: map<string, RunRow>) {
    && (forall r :: r in drivers ==> r in runs && runs[r].workspace == drivers[r])
    && (forall r :: r in runs && runs[r].status.Running? ==> r in drivers)
  }

  ghost predicate Reserver(launches: map<nat, Launch>, n: nat, ws: string) {
    n in launches && launches[n] == Reserved(ws)
  }

  /** A pending slot belongs to exactly one launch. */
  ghost predicate LaunchesTrue(inFlight: map<string, Slot>, launches: map<nat, Launch>) {
    && (forall n, ws :: Reserver(launches, n, ws) ==> ws in inFlight && inFlight[ws].Pending?)
    && (forall ws :: ws in inFlight && inFlight[ws].Pending? ==> exists n :: Reserver(launches, n, ws))
    && (forall m, n, ws :: Reserver(launches, m, ws) && Reserver(launches, n, ws) ==> m == n)
  }

  ghost predicate SlotsTrue(s: State) {
    && |s.inFlight| <= s.ceiling
    && DriversTrue(s.inFlight, s.controllers, s.drivers)
    && RunsTrue(s.drivers, s.runs)
    && LaunchesTrue(s.inFlight, s.launches)
  }

  /** A reservation that finds the slot taken since its check: two launches raced. */
  predicate Overlaps(s: State, m: Step) {
    m.Admit? && m.launch in s.launches && s.launches[m.launch].workspace in s.inFlight && |s.inFlight| < m.limit
  }

  /** A new daemon finds no slot, stop controller, lifecycle or launch; of the stored runs exactly those still
      marked running become failed, the others and every queue stay. */
  lemma BootFailsTheRunning(s: State, r: string)
    ensures var t := Next(s, Boot);
            && t.inFlight == map[] && t.controllers == {} && t.drivers == map[] && t.launches == map[]
            && t.lanes == s.lanes && (r in t.runs <==> r in s.runs)
            && (r in s.runs ==>
                  && t.runs[r].workspace == s.runs[r].workspace
                  && (s.runs[r].status == Running ==> t.runs[r].status == FailedRun)
                  && (s.runs[r].status != Running ==> t.runs[r].status == s.runs[r].status))
  {
  }

  /** At most one running run per workspace, and it is the one in the slot. */
  lemma OneRunPerWorkspace(s: State, a: string, b: string)
    requires SlotsTrue(s) && a in s.runs && b in s.runs
    requires s.runs[a].status.Running? && s.runs[b].status.Running? && s.runs[a].workspace == s.runs[b].workspace
    ensures a == b && s.runs[a].workspace in s.inFlight && s.inFlight[s.runs[a].workspace] == Live(a)
  {
    assert a in s.drivers && b in s.drivers;
  }
}
