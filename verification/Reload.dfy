/** Daemon self-reload: runs that change the daemon's own code ask for a rebuild and a restart, put off
    until nothing is in flight (packages/daemon/src/launcher.ts). The machine moves between await points. */
module Reload {
  import opened Outcomes
  import opened Sequences

  datatype Request = Request(runId: string, files: seq<string>)

  datatype BuildOutcome = Succeeded | ExitedNonZero | Threw

  datatype State = State(
    slots: set<string>,            // workspaces with a slot taken
    owed: nat,                     // settled runs that freed their slot and have yet to drain
    pending: Option<Request>,
    running: bool,
    building: seq<Request>,        // builds in progress
    built: seq<Request>,           // builds that ended
    restarts: seq<set<string>>,    // for each restart, the slots taken when it was ordered
    scheduled: seq<Request>,       // every request ever made
    cuts: seq<nat>)                // for each build begun, how many requests there were

  const IDLE := State({}, 0, None, false, [], [], [], [], [])

  datatype Step =
    | Launch(workspace: string)
    | RefuseLaunch(workspace: string)                        // gives the slot back; drains nothing
    | Schedule(runId: string, committed: seq<string>)        // a run's promise resolved
    | Free(workspace: string)                                // a settled run frees its slot ...
    | DrainOwed                                              // ... and, some awaits later, drains
    | BuildEnds(k: nat, outcome: BuildOutcome)

  predicate IsRuntimePath(file: string) {
    file == "packages/daemon" || "packages/daemon/" <= file || file == "packages/core" || "packages/core/" <= file
  }

  /** The daemon runs its own package and the core package: those directories and all below them. */
  lemma RuntimePathIff(file: string)
    ensures IsRuntimePath(file) <==>
            || file in {"packages/daemon", "packages/core"}
            || (|file| > 15 && file[..16] == "packages/daemon/")
            || (|file| > 13 && file[..14] == "packages/core/")
  {
  }

  function RuntimeFiles(files: seq<string>): (r: seq<string>)
    ensures forall f :: f in r <==> f in files && IsRuntimePath(f)
  {
    if files == [] then []
    else
      assert forall f :: f in files <==> f == files[0] || f in files[1..];
      (if IsRuntimePath(files[0]) then [files[0]] else []) + RuntimeFiles(files[1..])
  }

  function MergePending(current: Option<Request>, next: Request): (r: Request)
    ensures Distinct(r.files)
    ensures forall f :: f in r.files <==> f in next.files || (current.Some? && f in current.value.files)
  {
    if current.None? then Request(next.runId, Unique(next.files))
    else Request(next.runId, Unique(current.value.files + next.files))
  }

  predicate Enabled(s: State, m: Step) {
    match m
    case Launch(ws) => ws !in s.slots
    case RefuseLaunch(ws) => ws in s.slots
    case Free(ws) => ws in s.slots
    case DrainOwed => s.owed > 0
    case BuildEnds(k, _) => k < |s.building|
    case Schedule(_, _) => true
  }

  /** drainDaemonReload up to its build. */
  function BeginDrain(s: State): State {
    if s.running || s.slots != {} || s.pending.None? then s
    else s.(pending := None, running := true, building := s.building + [s.pending.value], cuts := s.cuts + [|s.scheduled|])
  }

  function Next(s: State, m: Step): State
    requires Enabled(s, m)
  {
    match m
    case Launch(ws) => s.(slots := s.slots + {ws})
    case RefuseLaunch(ws) => s.(slots := s.slots - {ws})
    case Schedule(r, committed) =>
      var files := RuntimeFiles(committed);
      if files == [] then s
      else BeginDrain(s.(pending := Some(MergePending(s.pending, Request(r, files))),
                         scheduled := s.scheduled + [Request(r, files)]))
    case Free(ws) => s.(slots := s.slots - {ws}, owed := s.owed + 1)
    case DrainOwed => BeginDrain(s.(owed := s.owed - 1))
    case BuildEnds(k, outcome) =>
      BeginDrain(s.(building := s.building[..k] + s.building[k + 1..], built := s.built + [s.building[k]], running := false,
                    restarts := if outcome.Succeeded? then s.restarts + [s.slots] else s.restarts))
  }

  // ----- the code, as methods over the shared fields -----

  class ReloadContext {
    var inFlight: set<string>
    var pending: Option<Request>
    var running: bool
    ghost var owed: nat
    ghost var building: seq<Request>
    ghost var built: seq<Request>
    ghost var restarts: seq<set<string>>
    ghost var scheduled: seq<Request>
    ghost var cuts: seq<nat>

    ghost function View(): State
      reads this
    {
      State(inFlight, owed, pending, running, building, built, restarts, scheduled, cuts)
    }

    constructor ()
      ensures View() == IDLE
    {
      inFlight, pending, running, owed := {}, None, false, 0;
      building, built, restarts, scheduled, cuts := [], [], [], [], [];
    }

    /** Up to the awaited build; `build` is what is being built, if a build began. */
    method DrainDaemonReload() returns (build: Option<Request>)
      modifies this
      ensures View() == BeginDrain(old(View()))
      ensures build == if old(running) || inFlight != {} then None else old(pending)
      ensures building == if build.Some? then old(building) + [build.value] else old(building)
      ensures running <==> old(running) || build != None
    {
      if running || |inFlight| > 0 || pending.None? {
        return None;
      }
      build := pending;
      pending := None;
      running := true;
      building := building + [build.value];
      cuts := cuts + [|scheduled|];
    }

    /** A finished run's commits, filtered to the daemon's own code, join the pending request. */
    method ScheduleDaemonReloadForRun(runId: string, committed: seq<string>) returns (build: Option<Request>)
      modifies this
      ensures View() == Next(old(View()), Schedule(runId, committed))
    {
      var files := RuntimeFiles(committed);
      if |files| == 0 {
        return None;
      }
      pending := Some(MergePending(pending, Request(runId, files)));
      scheduled := scheduled + [Request(runId, files)];
      build := DrainDaemonReload();
    }

    /** What follows the awaited build: restart if it succeeded, then, whatever happened, clear the flag
        and drain again. */
    method AfterBuild(ghost k: nat, outcome: BuildOutcome) returns (build: Option<Request>)
      requires k < |building|
      modifies this
      ensures View() == Next(old(View()), BuildEnds(k, outcome))
      ensures restarts == if outcome == Succeeded then old(restarts) + [inFlight] else old(restarts)
      ensures build == if inFlight == {} then old(pending) else None
      ensures running <==> build != None
      ensures pending == if inFlight == {} then None else old(pending)
    {
      built, building := built + [building[k]], building[..k] + building[k + 1..];
      if outcome.Succeeded? {
        restarts := restarts + [inFlight];
      }
      running := false;
      if |inFlight| == 0 && pending.Some? {
        build := DrainDaemonReload();
      } else {
        build := None;
      }
    }
  }
}
