/** What the reload machine keeps over every run: no request lost, no two builds at once; and when a
    restart hits a run, or a pending request is left behind. */
module ReloadTheorems {
  import opened Outcomes
  import opened Sequences
  import opened Reload

  // ----- batches -----

  /** The one request that stands for those made from `lo` up to `hi`. */
  function MergeRange(scheduled: seq<Request>, lo: nat, hi: nat): Option<Request>
    requires lo <= hi <= |scheduled|
  {
    if lo == hi then None
    else Some(MergePending(MergeRange(scheduled, lo, hi - 1), scheduled[hi - 1]))
  }

  predicate Asked(scheduled: seq<Request>, lo: nat, hi: nat, f: string) {
    exists i :: lo <= i < hi <= |scheduled| && f in scheduled[i].files
  }

  /** It carries the files of all of them, and the id of the last. */
  lemma {:induction false} MergeHoldsAll(scheduled: seq<Request>, lo: nat, hi: nat, f: string)
    requires lo < hi <= |scheduled|
    ensures MergeRange(scheduled, lo, hi).value.runId == scheduled[hi - 1].runId
    ensures f in MergeRange(scheduled, lo, hi).value.files <==> Asked(scheduled, lo, hi, f)
  {
    if lo < hi - 1 {
      MergeHoldsAll(scheduled, lo, hi - 1, f);
      assert Asked(scheduled, lo, hi, f) <==> Asked(scheduled, lo, hi - 1, f) || f in scheduled[hi - 1].files;
    } else {
      assert Asked(scheduled, lo, hi, f) <==> f in scheduled[hi - 1].files;
    }
  }

  lemma {:induction false} MergeIgnoresLater(scheduled: seq<Request>, next: Request, lo: nat, hi: nat)
    requires lo <= hi <= |scheduled|
    ensures MergeRange(scheduled + [next], lo, hi) == MergeRange(scheduled, lo, hi)
  {
    hide MergePending;
    if lo < hi {
      MergeIgnoresLater(scheduled, next, lo, hi - 1);
    }
  }

  /** Where build `i`'s batch starts: where the batch before it ended. */
  function CutBefore(cuts: seq<nat>, i: nat): nat
    requires i <= |cuts|
  {
    if i == 0 then 0 else cuts[i - 1]
  }

  ghost predicate CutsTrue(cuts: seq<nat>, n: nat) {
    && (forall i, j :: 0 <= i < j < |cuts| ==> cuts[i] <= cuts[j])
    && forall i :: 0 <= i < |cuts| ==> cuts[i] <= n
  }

  /** The requests split into consecutive batches: each build, in the order they began, is the merge of
      its batch, and what is pending is the merge of the rest. */
  ghost predicate BatchesTrue(builds: seq<Request>, pending: Option<Request>, cuts: seq<nat>, scheduled: seq<Request>) {
    && CutsTrue(cuts, |scheduled|) && |cuts| == |builds|
    && (forall i :: 0 <= i < |builds| ==> BatchTrue(builds, cuts, scheduled, i))
    && pending == MergeRange(scheduled, CutBefore(cuts, |cuts|), |scheduled|)
  }

  ghost predicate ReloadTrue(s: State) {
    && |s.building| <= 1
    && (s.running <==> |s.building| == 1)
    && BatchesTrue(s.built + s.building, s.pending, s.cuts, s.scheduled)
  }

  lemma ScheduleKeepsBatches(builds: seq<Request>, pending: Option<Request>, cuts: seq<nat>, scheduled: seq<Request>, next: Request)
    requires BatchesTrue(builds, pending, cuts, scheduled)
    ensures BatchesTrue(builds, Some(MergePending(pending, next)), cuts, scheduled + [next])
  {
    MergeIgnoresLater(scheduled, next, CutBefore(cuts, |cuts|), |scheduled|);
    forall i | 0 <= i < |builds|
      ensures BatchTrue(builds, cuts, scheduled + [next], i)
    {
      assert BatchTrue(builds, cuts, scheduled, i);
      MergeIgnoresLater(scheduled, next, CutBefore(cuts, i), cuts[i]);
    }
  }

  lemma CutKeepsCuts(cuts: seq<nat>, n: nat)
    requires CutsTrue(cuts, n)
    ensures CutsTrue(cuts + [n], n)
    ensures forall i :: 0 <= i <= |cuts| ==> CutBefore(cuts + [n], i) == CutBefore(cuts, i)
  {
  }

  ghost predicate BatchTrue(builds: seq<Request>, cuts: seq<nat>, scheduled: seq<Request>, i: nat)
    requires i < |builds| == |cuts| && CutsTrue(cuts, |scheduled|)
  {
    MergeRange(scheduled, CutBefore(cuts, i), cuts[i]) == Some(builds[i])
  }

  lemma BeginKeepsBatches(builds: seq<Request>, pending: Request, cuts: seq<nat>, scheduled: seq<Request>)
    requires BatchesTrue(builds, Some(pending), cuts, scheduled)
    ensures BatchesTrue(builds + [pending], None, cuts + [|scheduled|], scheduled)
  {
    var more, n := cuts + [|scheduled|], |builds|;
    CutKeepsCuts(cuts, |scheduled|);
    forall i | 0 <= i < n + 1
      ensures BatchTrue(builds + [pending], more, scheduled, i)
    {
      if i < n {
        assert BatchTrue(builds, cuts, scheduled, i);
      }
    }
  }

  lemma BeginKeepsReload(s: State)
    requires ReloadTrue(s)
    ensures ReloadTrue(BeginDrain(s))
  {
    if !s.running && s.slots == {} && s.pending.Some? {
      assert s.building == [];
      BeginKeepsBatches(s.built + s.building, s.pending.value, s.cuts, s.scheduled);
      assert s.built + (s.building + [s.pending.value]) == (s.built + s.building) + [s.pending.value];
    }
  }

  /** Every move keeps the batches, and never has two builds in progress. */
  lemma MoveKeepsReload(s: State, m: Step)
    requires ReloadTrue(s) && Enabled(s, m)
    ensures ReloadTrue(Next(s, m))
  {
    match m
    case Schedule(r, committed) =>
      var files := RuntimeFiles(committed);
      if files != [] {
        ScheduleKeepsBatches(s.built + s.building, s.pending, s.cuts, s.scheduled, Request(r, files));
        BeginKeepsReload(s.(pending := Some(MergePending(s.pending, Request(r, files))),
                            scheduled := s.scheduled + [Request(r, files)]));
      }
    case DrainOwed => BeginKeepsReload(s.(owed := s.owed - 1));
    case BuildEnds(k, outcome) =>
      assert k == 0 && s.building == [s.building[0]];
      assert s.building[..k] + s.building[k + 1..] == [];
      assert (s.built + [s.building[0]]) + [] == s.built + s.building;
      BeginKeepsReload(s.(building := [], built := s.built + [s.building[0]], running := false,
                          restarts := if outcome.Succeeded? then s.restarts + [s.slots] else s.restarts));
    case _ =>
  }

  /** Conservation: every runtime file ever scheduled is pending, being built or built, and none other. */
  lemma {:induction false} NothingIsLost(s: State, f: string)
    requires ReloadTrue(s)
    ensures Holds(s.scheduled, f) <==>
            (s.pending.Some? && f in s.pending.value.files) || Holds(s.building, f) || Holds(s.built, f)
  {
    var builds := s.built + s.building;
    FilesOfBatches(builds, s.pending, s.cuts, s.scheduled, f);
    HoldsOfBoth(s.built, s.building, f);
  }

  lemma HoldsOfBoth(a: seq<Request>, b: seq<Request>, f: string)
    ensures Holds(a + b, f) <==> Holds(a, f) || Holds(b, f)
  {
    if i :| 0 <= i < |a| && f in a[i].files {
      assert (a + b)[i] == a[i];
    }
    if i :| 0 <= i < |b| && f in b[i].files {
      assert (a + b)[|a| + i] == b[i];
    }
  }

  predicate Holds(requests: seq<Request>, f: string) {
    exists i :: 0 <= i < |requests| && f in requests[i].files
  }

  lemma {:induction false} FilesOfBatches(builds: seq<Request>, pending: Option<Request>, cuts: seq<nat>,
                                          scheduled: seq<Request>, f: string)
    requires BatchesTrue(builds, pending, cuts, scheduled)
    ensures Holds(scheduled, f) <==> (pending.Some? && f in pending.value.files) || Holds(builds, f)
  {
    var last := CutBefore(cuts, |cuts|);
    if pending.Some? {
      MergeHoldsAll(scheduled, last, |scheduled|, f);
    }
    if Holds(builds, f) {
      var i :| 0 <= i < |builds| && f in builds[i].files;
      assert BatchTrue(builds, cuts, scheduled, i);
      MergeHoldsAll(scheduled, CutBefore(cuts, i), cuts[i], f);
    }
    if Holds(scheduled, f) {
      var j :| 0 <= j < |scheduled| && f in scheduled[j].files;
      if j < last {
        var i := BatchOf(cuts, |cuts|, j);
        MergeHoldsAll(scheduled, CutBefore(cuts, i), cuts[i], f);
        assert BatchTrue(builds, cuts, scheduled, i);
        assert f in builds[i].files;
      }
    }
  }

  lemma {:induction false} BatchOf(cuts: seq<nat>, n: nat, j: nat) returns (i: nat)
    requires n <= |cuts| && j < CutBefore(cuts, n)
    ensures i < n && CutBefore(cuts, i) <= j < cuts[i]
  {
    if j >= CutBefore(cuts, n - 1) {
      i := n - 1;
    } else {
      i := BatchOf(cuts, n - 1, j);
    }
  }

  // ----- a pending request is picked up -----

  /** Somebody will look at what is pending: a run in flight, a settled run on its way, or the build. */
  predicate Attended(s: State) {
    s.pending.Some? ==> s.slots != {} || s.owed > 0 || s.running
  }

  /** A refused launch that frees the last slot while a request waits and nobody else will look. */
  predicate LeavesBehind(s: State, m: Step) {
    m.RefuseLaunch? && s.slots == {m.workspace} && s.pending.Some? && s.owed == 0 && !s.running
  }

  /** A move leaves a pending request unattended exactly when it is such a refusal. */
  lemma MoveLeavesBehindIff(s: State, m: Step)
    requires Attended(s) && Enabled(s, m)
    ensures Attended(Next(s, m)) <==> !LeavesBehind(s, m)
  {
    match m
    case Launch(ws) => assert ws in Next(s, m).slots;
    case RefuseLaunch(ws) =>
      if s.slots - {ws} == {} {
        assert s.slots == {ws};
      }
    case _ =>
  }

  // ----- whole runs -----

  ghost predicate Path(s: State, steps: seq<Step>)
    decreases |steps|
  {
    steps == [] || (Enabled(s, steps[0]) && Path(Next(s, steps[0]), steps[1..]))
  }

  function Run(s: State, steps: seq<Step>): State
    requires Path(s, steps)
    decreases |steps|
  {
    if steps == [] then s else Run(Next(s, steps[0]), steps[1..])
  }

  ghost predicate LeavesNoneBehind(s: State, steps: seq<Step>)
    requires Path(s, steps)
    decreases |steps|
  {
    steps == [] || (!LeavesBehind(s, steps[0]) && LeavesNoneBehind(Next(s, steps[0]), steps[1..]))
  }

  lemma {:induction false} RunKeepsReload(s: State, steps: seq<Step>)
    requires ReloadTrue(s) && Path(s, steps)
    ensures ReloadTrue(Run(s, steps))
    ensures Attended(s) && LeavesNoneBehind(s, steps) ==> Attended(Run(s, steps))
    decreases |steps|
  {
    if steps != [] {
      MoveKeepsReload(s, steps[0]);
      if Attended(s) {
        MoveLeavesBehindIff(s, steps[0]);
      }
      RunKeepsReload(Next(s, steps[0]), steps[1..]);
    }
  }

  /** Conservation from an idle daemon over any run. */
  lemma EveryFileIsAccountedFor(steps: seq<Step>, f: string)
    requires Path(IDLE, steps)
    ensures var s := Run(IDLE, steps);
            && |s.building| <= 1
            && (Holds(s.scheduled, f) <==>
                (s.pending.Some? && f in s.pending.value.files) || Holds(s.building, f) || Holds(s.built, f))
  {
    RunKeepsReload(IDLE, steps);
    NothingIsLost(Run(IDLE, steps), f);
  }

  // ----- restarts and runs -----

  /** A build begins with every slot free. */
  lemma BuildsBeginIdle(s: State, m: Step)
    requires ReloadTrue(s) && Enabled(s, m) && |Next(s, m).cuts| > |s.cuts|
    ensures Next(s, m).slots == {}
  {
  }

  /** The workspaces launched over some moves and not freed again. */
  function LaunchedSince(steps: seq<Step>): set<string> {
    if steps == [] then {}
    else
      var before := LaunchedSince(steps[..|steps| - 1]);
      match steps[|steps| - 1]
      case Launch(ws) => before + {ws}
      case RefuseLaunch(ws) => before - {ws}
      case Free(ws) => before - {ws}
      case _ => before
  }

  lemma {:induction false} RunSplit(s: State, steps: seq<Step>)
    requires Path(s, steps) && steps != []
    ensures var front, last := steps[..|steps| - 1], steps[|steps| - 1];
            Path(s, front) && Enabled(Run(s, front), last) && Run(s, steps) == Next(Run(s, front), last)
    decreases |steps|
  {
    if |steps| == 1 {
      assert steps[1..] == [];
    } else {
      RunSplit(Next(s, steps[0]), steps[1..]);
      assert steps[1..][..|steps[1..]| - 1] == steps[..|steps| - 1][1..];
    }
  }

  lemma {:induction false} SlotsSinceBuildBegan(s: State, steps: seq<Step>)
    requires s.slots == {} && Path(s, steps)
    ensures Run(s, steps).slots == LaunchedSince(steps)
    decreases |steps|
  {
    if steps != [] {
      RunSplit(s, steps);
      SlotsSinceBuildBegan(s, steps[..|steps| - 1]);
    }
  }

  lemma RestartIsRecorded(s: State)
    requires |s.building| == 1
    ensures Next(s, BuildEnds(0, Succeeded)).restarts == s.restarts + [s.slots]
  {
  }

  /** A build begins with every slot free, so the restart that follows it hits exactly the runs launched
      while it ran: it is never mid-run just when there are none. */
  lemma {:induction false} RestartHitsLaunchesSince(s: State, steps: seq<Step>)
    requires ReloadTrue(s) && s.slots == {} && Path(s, steps) && Run(s, steps).running
    ensures Enabled(Run(s, steps), BuildEnds(0, Succeeded))
    ensures Next(Run(s, steps), BuildEnds(0, Succeeded)).restarts == Run(s, steps).restarts + [LaunchedSince(steps)]
  {
    var at := Run(s, steps);
    assert |at.building| == 1 by {
      RunKeepsReload(s, steps);
    }
    RestartIsRecorded(at);
    SlotsSinceBuildBegan(s, steps);
  }

  /** So a run launched while a build is under way is hit by its restart. */
  lemma LaunchDuringBuildIsHit(s: State, ws: string)
    requires ReloadTrue(s) && s.slots == {} && s.running
    ensures Path(s, [Launch(ws)]) && Enabled(Run(s, [Launch(ws)]), BuildEnds(0, Succeeded))
    ensures Next(Run(s, [Launch(ws)]), BuildEnds(0, Succeeded)).restarts == s.restarts + [{ws}]
  {
    RunCons(s, Launch(ws), [], Next(s, Launch(ws)));
    assert [Launch(ws)] + [] == [Launch(ws)];
    RestartHitsLaunchesSince(s, [Launch(ws)]);
    assert LaunchedSince([Launch(ws)]) == {ws} by {
      assert [Launch(ws)][..0] == [];
    }
  }

  const ASKED := Request("run_1", ["packages/core"])
  const W_LIVE := IDLE.(slots := {"w"})
  const W_ASKED := W_LIVE.(pending := Some(ASKED), scheduled := [ASKED])
  const V_PENDING := W_ASKED.(slots := {"w", "v"})
  const W_FREED := V_PENDING.(slots := {"v"}, owed := 1)
  const W_DRAINED := W_FREED.(owed := 0)
  const LEFT_BEHIND := W_DRAINED.(slots := {})

  lemma RunAsks()
    ensures Next(W_LIVE, Schedule("run_1", ["packages/core"])) == W_ASKED
  {
    assert RuntimeFiles(["packages/core"]) == ["packages/core"] by {
      assert ["packages/core"][1..] == [];
    }
    UniqueOfDistinct(["packages/core"]);
  }

  lemma LaunchAndFree()
    ensures Enabled(IDLE, Launch("w")) && Next(IDLE, Launch("w")) == W_LIVE
    ensures Enabled(W_ASKED, Launch("v")) && Next(W_ASKED, Launch("v")) == V_PENDING
    ensures Enabled(V_PENDING, Free("w")) && Next(V_PENDING, Free("w")) == W_FREED
    ensures Enabled(W_FREED, DrainOwed) && Next(W_FREED, DrainOwed) == W_DRAINED
    ensures Enabled(W_DRAINED, RefuseLaunch("v")) && Next(W_DRAINED, RefuseLaunch("v")) == LEFT_BEHIND
  {
    assert V_PENDING.slots - {"w"} == {"v"};
  }

  /** A launch refused during the last wait leaves a request that no later move but a new run picks up. */
  lemma RefusedLaunchLeavesARequest()
    ensures var steps := [Launch("w"), Schedule("run_1", ["packages/core"]), Launch("v"), Free("w"), DrainOwed, RefuseLaunch("v")];
            Path(IDLE, steps) && Run(IDLE, steps) == LEFT_BEHIND
    ensures !Attended(LEFT_BEHIND) && LEFT_BEHIND.pending == Some(ASKED)
  {
    hide Next;
    RunAsks();
    LaunchAndFree();
    var t5 := [RefuseLaunch("v")] + [];
    var t4 := [DrainOwed] + t5;
    var t3 := [Free("w")] + t4;
    var t2 := [Launch("v")] + t3;
    var t1 := [Schedule("run_1", ["packages/core"])] + t2;
    RunCons(W_DRAINED, RefuseLaunch("v"), [], LEFT_BEHIND);
    RunCons(W_FREED, DrainOwed, t5, W_DRAINED);
    RunCons(V_PENDING, Free("w"), t4, W_FREED);
    RunCons(W_ASKED, Launch("v"), t3, V_PENDING);
    RunCons(W_LIVE, Schedule("run_1", ["packages/core"]), t2, W_ASKED);
    RunCons(IDLE, Launch("w"), t1, W_LIVE);
    assert [Launch("w"), Schedule("run_1", ["packages/core"]), Launch("v"), Free("w"), DrainOwed, RefuseLaunch("v")]
        == [Launch("w")] + t1;
  }

  lemma RunCons(s: State, m: Step, rest: seq<Step>, next: State)
    requires Enabled(s, m) && Next(s, m) == next && Path(next, rest)
    ensures Path(s, [m] + rest) && Run(s, [m] + rest) == Run(next, rest)
  {
    assert ([m] + rest)[1..] == rest;
  }
}
