/** What the run-slot machine keeps over every run, and exactly which moves break it. */
module RunSlotTheorems {
  import opened Governance
  import opened GovernanceGuards
  import opened AuthoringQueue
  import opened QueueHistory
  import opened RunSlots

  // ----- slots -----

  lemma CheckKeepsLaunches(inFlight: map<string, Slot>, launches: map<nat, Launch>, n: nat, ws: string)
    requires LaunchesTrue(inFlight, launches) && n !in launches
    ensures LaunchesTrue(inFlight, launches[n := Checked(ws)])
  {
    var next := launches[n := Checked(ws)];
    assert forall m, w :: Reserver(next, m, w) <==> Reserver(launches, m, w);
  }

  lemma ForgetKeepsLaunches(inFlight: map<string, Slot>, launches: map<nat, Launch>, n: nat)
    requires LaunchesTrue(inFlight, launches) && n in launches && launches[n].Checked?
    ensures LaunchesTrue(inFlight, launches - {n})
  {
    var next := launches - {n};
    assert forall m, w :: Reserver(next, m, w) <==> Reserver(launches, m, w);
  }

  lemma ReserveKeepsLaunches(inFlight: map<string, Slot>, launches: map<nat, Launch>, n: nat, ws: string)
    requires LaunchesTrue(inFlight, launches) && n in launches && launches[n] == Checked(ws) && ws !in inFlight
    ensures LaunchesTrue(inFlight[ws := Pending], launches[n := Reserved(ws)])
  {
    var next := launches[n := Reserved(ws)];
    assert Reserver(next, n, ws);
    assert forall m, w :: Reserver(next, m, w) <==> Reserver(launches, m, w) || (m == n && w == ws);
  }

  /** A launch that gives up its reservation, whatever becomes of its slot unless it stays pending. */
  lemma ReleaseKeepsLaunches(inFlight: map<string, Slot>, launches: map<nat, Launch>, n: nat, next: map<string, Slot>)
    requires LaunchesTrue(inFlight, launches) && n in launches && launches[n].Reserved?
    requires forall w :: w in next && next[w].Pending? ==> w in inFlight && inFlight[w].Pending? && w != launches[n].workspace
    requires forall w :: w in inFlight && inFlight[w].Pending? && w != launches[n].workspace ==> w in next && next[w].Pending?
    ensures LaunchesTrue(next, launches - {n})
  {
    var ws := launches[n].workspace;
    assert Reserver(launches, n, ws);
    assert forall m, w :: Reserver(launches - {n}, m, w) <==> Reserver(launches, m, w) && m != n;
    assert forall m, w :: Reserver(launches, m, w) && m != n ==> w != ws;
  }

  lemma DriveKeepsDrivers(inFlight: map<string, Slot>, controllers: set<string>, drivers: map<string, string>,
                          ws: string, r: string)
    requires DriversTrue(inFlight, controllers, drivers) && r !in drivers
    requires ws in inFlight ==> inFlight[ws].Pending?
    ensures DriversTrue(inFlight[ws := Live(r)], controllers + {r}, drivers[r := ws])
  {
    assert drivers[r := ws].Keys == drivers.Keys + {r};
    forall q | q in drivers ensures drivers[q] != ws {
      assert inFlight[drivers[q]] == Live(q);
    }
  }

  lemma SettleKeepsDrivers(inFlight: map<string, Slot>, controllers: set<string>, drivers: map<string, string>, r: string)
    requires DriversTrue(inFlight, controllers, drivers) && r in drivers
    ensures DriversTrue(inFlight - {drivers[r]}, controllers - {r}, drivers - {r})
  {
    forall q | q in drivers && q != r ensures drivers[q] != drivers[r] {
      assert inFlight[drivers[q]] == Live(q) && inFlight[drivers[r]] == Live(r);
    }
  }

  lemma PendingKeepsDrivers(inFlight: map<string, Slot>, controllers: set<string>, drivers: map<string, string>,
                            next: map<string, Slot>)
    requires DriversTrue(inFlight, controllers, drivers)
    requires forall w, r :: (w in next && next[w] == Live(r)) <==> (w in inFlight && inFlight[w] == Live(r))
    ensures DriversTrue(next, controllers, drivers)
  {
    forall r | r in drivers ensures drivers[r] in next && next[drivers[r]] == Live(r) {
      assert inFlight[drivers[r]] == Live(r);
    }
    forall ws | ws in next && next[ws].Live?
      ensures next[ws].runId in drivers && drivers[next[ws].runId] == ws
    {
      assert next[ws] == Live(next[ws].runId);
      assert inFlight[ws] == Live(next[ws].runId);
    }
  }

  lemma AdmitKeepsSlots(s: State, n: nat, limit: nat)
    requires SlotsTrue(s) && Enabled(s, Admit(n, limit)) && !Overlaps(s, Admit(n, limit))
    ensures SlotsTrue(Next(s, Admit(n, limit)))
  {
    hide DriversTrue, RunsTrue, LaunchesTrue;
    if |s.inFlight| < limit {
      var ws := s.launches[n].workspace;
      assert s.inFlight[ws := Pending].Keys == s.inFlight.Keys + {ws};
      assert |s.inFlight[ws := Pending]| == |s.inFlight[ws := Pending].Keys|;
      ReserveKeepsLaunches(s.inFlight, s.launches, n, ws);
      PendingKeepsDrivers(s.inFlight, s.controllers, s.drivers, s.inFlight[ws := Pending]);
    } else {
      ForgetKeepsLaunches(s.inFlight, s.launches, n);
    }
  }

  /** A refused launch gives its slot back. */
  lemma RefuseKeepsSlots(s: State, n: nat)
    requires SlotsTrue(s) && Enabled(s, Refuse(n))
    ensures SlotsTrue(Next(s, Refuse(n)))
    ensures Next(s, Refuse(n)).inFlight.Keys == s.inFlight.Keys - {s.launches[n].workspace}
  {
    var ws := s.launches[n].workspace;
    assert Reserver(s.launches, n, ws);
    FewerKeys(s.inFlight, ws);
    ReleaseKeepsLaunches(s.inFlight, s.launches, n, s.inFlight - {ws});
    PendingKeepsDrivers(s.inFlight, s.controllers, s.drivers, s.inFlight - {ws});
  }

  lemma FewerKeys(m: map<string, Slot>, k: string)
    ensures |m - {k}| <= |m|
  {
    assert (m - {k}).Keys == m.Keys - {k};
    assert |m - {k}| == |(m - {k}).Keys| && |m| == |m.Keys|;
  }

  lemma DriveKeepsSlots(s: State, n: nat, r: string, row: RunRow)
    requires SlotsTrue(s) && n in s.launches && s.launches[n].Reserved? && r !in s.drivers
    requires row.workspace == s.launches[n].workspace
    ensures SlotsTrue(Drive(s.(runs := s.runs[r := row]), n, s.launches[n].workspace, r))
  {
    var ws := s.launches[n].workspace;
    assert Reserver(s.launches, n, ws);
    assert s.inFlight[ws := Live(r)].Keys == s.inFlight.Keys;
    assert |s.inFlight[ws := Live(r)]| == |s.inFlight[ws := Live(r)].Keys|;
    DriveKeepsDrivers(s.inFlight, s.controllers, s.drivers, ws, r);
    ReleaseKeepsLaunches(s.inFlight, s.launches, n, s.inFlight[ws := Live(r)]);
  }

  lemma SettleKeepsRuns(drivers: map<string, string>, runs: map<string, RunRow>, r: string, status: RunStatus)
    requires RunsTrue(drivers, runs) && r in drivers && r in runs && !status.Running?
    ensures RunsTrue(drivers - {r}, runs[r := runs[r].(status := status)])
  {
  }

  lemma SettleKeepsLaunches(inFlight: map<string, Slot>, launches: map<nat, Launch>, ws: string)
    requires LaunchesTrue(inFlight, launches) && ws in inFlight && inFlight[ws].Live?
    ensures LaunchesTrue(inFlight - {ws}, launches)
  {
    assert forall n, w :: Reserver(launches, n, w) ==> w != ws;
  }

  lemma DriverHoldsSlot(s: State, r: string)
    requires SlotsTrue(s) && r in s.drivers
    ensures HoldsSlot(s, r, s.drivers[r])
  {
    hide RunsTrue, LaunchesTrue;
  }

  lemma SettleKeepsSlots(s: State, r: string, status: RunStatus, world: World, life: Life)
    requires SlotsTrue(s) && Enabled(s, Settle(r, status, world, life))
    ensures SlotsTrue(Next(s, Settle(r, status, world, life)))
  {
    hide Drain, LaneOf, DriversTrue, RunsTrue, LaunchesTrue;
    var ws := s.drivers[r];
    DriverHoldsSlot(s, r);
    FewerKeys(s.inFlight, ws);
    SettleKeepsDrivers(s.inFlight, s.controllers, s.drivers, r);
    SettleKeepsRuns(s.drivers, s.runs, r, status);
    SettleKeepsLaunches(s.inFlight, s.launches, ws);
  }

  /** Moves that leave the slots alone. */
  lemma SameSlotsTrue(s: State, t: State)
    requires SlotsTrue(s) && RunsTrue(t.drivers, t.runs)
    requires t.inFlight == s.inFlight && t.controllers == s.controllers && t.drivers == s.drivers
    requires t.launches == s.launches && t.ceiling >= s.ceiling
    ensures SlotsTrue(t)
  {
    hide DriversTrue, RunsTrue, LaunchesTrue;
  }

  lemma LanesAreApart(s: State, m: Step)
    requires SlotsTrue(s) && Enabled(s, m) && (m.Author? || m.OwnEdit? || m.BoundaryDrain?)
    ensures SlotsTrue(Next(s, m))
  {
    hide DriversTrue, RunsTrue, LaunchesTrue, LaneOf, Drain, Direct, MayEnqueue;
    SameSlotsTrue(s, Next(s, m));
  }

  lemma ConfirmKeepsSlots(s: State, r: string, id: string, v: Verdict)
    requires SlotsTrue(s) && Enabled(s, ConfirmClose(r, id, v))
    ensures SlotsTrue(Next(s, ConfirmClose(r, id, v)))
  {
    hide DriversTrue, LaunchesTrue, LaneOf, Direct, IsOpen;
    SameSlotsTrue(s, Next(s, ConfirmClose(r, id, v)));
  }

  lemma OthersKeepSlots(s: State, m: Step)
    requires SlotsTrue(s) && Enabled(s, m)
    requires m.Check? || m.Progress? || m.Finalize?
    ensures SlotsTrue(Next(s, m))
  {
    hide DriversTrue, LaunchesTrue, LaneOf;
    if m.Check? {
      CheckKeepsLaunches(s.inFlight, s.launches, m.launch, m.workspace);
    } else {
      SameSlotsTrue(s, Next(s, m));
    }
  }

  lemma OverlapBreaksSlots(s: State, m: Step)
    requires SlotsTrue(s) && Enabled(s, m) && Overlaps(s, m)
    ensures !SlotsTrue(Next(s, m))
  {
    var next := Next(s, m);
    var ws := s.launches[m.launch].workspace;
    if s.inFlight[ws].Live? {
      var r := s.inFlight[ws].runId;
      assert r in next.drivers && next.drivers[r] == ws && next.inFlight[ws] == Pending;
    } else {
      var k :| Reserver(s.launches, k, ws);
      assert Reserver(next.launches, k, ws) && Reserver(next.launches, m.launch, ws);
    }
  }

  /** A move keeps the slots true exactly when it is not a reservation of a taken slot. */
  lemma MoveKeepsSlotsIff(s: State, m: Step)
    requires SlotsTrue(s) && Enabled(s, m)
    ensures SlotsTrue(Next(s, m)) <==> !Overlaps(s, m)
  {
    hide Drain, Direct, LaneOf, MayEnqueue;
    if Overlaps(s, m) {
      OverlapBreaksSlots(s, m);
    } else {
      match m {
        case Admit(n, limit) => AdmitKeepsSlots(s, n, limit);
        case Refuse(n) => RefuseKeepsSlots(s, n);
        case Create(n, r) => DriveKeepsSlots(s, n, r, RunRow(s.launches[n].workspace, Running));
        case Resume(n, r) =>
          DriveKeepsSlots(s, n, r, s.runs[r]);
          assert s.runs[r := s.runs[r]] == s.runs;
        case Settle(r, status, world, life) => SettleKeepsSlots(s, r, status, world, life);
        case ConfirmClose(r, id, v) => ConfirmKeepsSlots(s, r, id, v);
        case Boot => RebootedSlotsTrue(s);
        case Crash(r, world, life) => RebootedSlotsTrue(DrainLane(s, s.drivers[r], world, life));
        case Author(_, _, _) => LanesAreApart(s, m);
        case OwnEdit(_, _, _, _) => LanesAreApart(s, m);
        case BoundaryDrain(_, _, _) => LanesAreApart(s, m);
        case _ => OthersKeepSlots(s, m);
      }
    }
  }

  // ----- whole runs -----

  ghost predicate Path(s: State, steps: seq<Step>)
    decreases |steps|
  {
    steps == [] || (Enabled(s, steps[0]) && Path(Next(s, steps[0]), steps[1..]))
  }

  function Run(s: State, steps: seq<Step>): State
    requires Path(s, steps)
    decreases |steps|
  {
    if steps == [] then s else Run(Next(s, steps[0]), steps[1..])
  }

  /** No reservation of the run finds its slot taken, as when check and reserve are one step. */
  ghost predicate NoOverlap(s: State, steps: seq<Step>)
    requires Path(s, steps)
    decreases |steps|
  {
    steps == [] || (!Overlaps(s, steps[0]) && NoOverlap(Next(s, steps[0]), steps[1..]))
  }

  lemma {:induction false} RunKeepsSlots(s: State, steps: seq<Step>)
    requires SlotsTrue(s) && Path(s, steps) && NoOverlap(s, steps)
    ensures SlotsTrue(Run(s, steps))
    decreases |steps|
  {
    if steps != [] {
      MoveKeepsSlotsIff(s, steps[0]);
      RunKeepsSlots(Next(s, steps[0]), steps[1..]);
    }
  }

  /** A move of this launch, or one that starts the daemon again. */
  predicate ActsOn(m: Step, n: nat) {
    ((m.Refuse? || m.Create? || m.Resume?) && m.launch == n) || m.Boot? || m.Crash?
  }

  lemma StuckStep(s: State, m: Step, n: nat, ws: string)
    requires SlotsTrue(s) && Reserver(s.launches, n, ws) && Enabled(s, m) && !ActsOn(m, n) && !Overlaps(s, m)
    ensures SlotsTrue(Next(s, m)) && Reserver(Next(s, m).launches, n, ws)
  {
    hide SlotsTrue, Drain, Direct, LaneOf, MayEnqueue, IsOpen;
    MoveKeepsSlotsIff(s, m);
  }

  /** A reservation whose launch makes no further move, as when it threw, holds its workspace's slot until
      the daemon starts again, whatever else happens: no launch of the workspace passes its check. */
  lemma {:induction false} AbandonedSlotStays(s: State, steps: seq<Step>, n: nat, ws: string)
    requires SlotsTrue(s) && Reserver(s.launches, n, ws) && Path(s, steps) && NoOverlap(s, steps)
    requires forall i :: 0 <= i < |steps| ==> !ActsOn(steps[i], n)
    ensures var end := Run(s, steps);
            && SlotsTrue(end) && ws in end.inFlight && end.inFlight[ws] == Pending
            && forall k :: !Enabled(end, Check(k, ws))
    decreases |steps|
  {
    if steps != [] {
      StuckStep(s, steps[0], n, ws);
      AbandonedSlotStays(Next(s, steps[0]), steps[1..], n, ws);
    }
  }

  /** A launch whose check and reservation are one step cannot overlap. */
  lemma CheckedReservationDoesNotOverlap(s: State, n: nat, ws: string, limit: nat)
    requires Enabled(s, Check(n, ws))
    ensures !Overlaps(Next(s, Check(n, ws)), Admit(n, limit))
  {
  }

  lemma RebootedSlotsTrue(s: State)
    ensures SlotsTrue(Rebooted(s))
  {
  }

  /** Booting establishes the invariant whatever the crash left behind. */
  lemma BootEstablishesSlots(s: State, m: Step)
    requires Enabled(s, m) && (m.Boot? || m.Crash?)
    ensures SlotsTrue(Next(s, m))
  {
    hide SlotsTrue, Rebooted, Drain, LaneOf;
    RebootedSlotsTrue(if m.Boot? then s else DrainLane(s, s.drivers[m.runId], m.world, m.life));
  }

  /** Races or not, a move keeps the ceiling exactly when it does not hand a full house's next slot to a
      launch whose reservation is gone. */
  lemma MoveKeepsCeilingIff(s: State, m: Step)
    requires |s.inFlight| <= s.ceiling && Enabled(s, m)
    ensures |Next(s, m).inFlight| <= Next(s, m).ceiling
            <==> !((m.Create? || m.Resume?) && s.launches[m.launch].workspace !in s.inFlight && |s.inFlight| == s.ceiling)
  {
    hide Next, MayEnqueue;
    if m.Create? || m.Resume? {
      DriveSlots(s, m);
    } else if m.Admit? {
      AdmitSlots(s, m.launch, m.limit);
    } else {
      OthersAddNoSlot(s, m);
    }
  }

  lemma DriveSlots(s: State, m: Step)
    requires Enabled(s, m) && (m.Create? || m.Resume?)
    ensures Next(s, m).ceiling == s.ceiling
    ensures |Next(s, m).inFlight| == |s.inFlight| + if s.launches[m.launch].workspace in s.inFlight then 0 else 1
  {
    SlotSet(s.inFlight, s.launches[m.launch].workspace, Live(m.runId));
  }

  lemma AdmitSlots(s: State, n: nat, limit: nat)
    requires Enabled(s, Admit(n, limit)) && |s.inFlight| <= s.ceiling
    ensures |Next(s, Admit(n, limit)).inFlight| <= Next(s, Admit(n, limit)).ceiling
  {
    SlotSet(s.inFlight, s.launches[n].workspace, Pending);
  }

  lemma SlotsAfter(s: State, m: Step)
    requires Enabled(s, m) && !m.Create? && !m.Resume? && !m.Admit?
    ensures Next(s, m).ceiling == s.ceiling
    ensures Next(s, m).inFlight ==
              if m.Refuse? then s.inFlight - {s.launches[m.launch].workspace}
              else if m.Settle? then s.inFlight - {s.drivers[m.runId]}
              else if m.Boot? || m.Crash? then map[]
              else s.inFlight
  {
    hide Drain, Direct, LaneOf, MayEnqueue, IsOpen;
  }

  lemma OthersAddNoSlot(s: State, m: Step)
    requires Enabled(s, m) && !m.Create? && !m.Resume? && !m.Admit?
    ensures Next(s, m).ceiling == s.ceiling && |Next(s, m).inFlight| <= |s.inFlight|
  {
    hide Next, LaneOf, MayEnqueue;
    SlotsAfter(s, m);
    if m.Refuse? {
      FewerKeys(s.inFlight, s.launches[m.launch].workspace);
    } else if m.Settle? {
      FewerKeys(s.inFlight, s.drivers[m.runId]);
    }
  }

  lemma SlotSet(m: map<string, Slot>, k: string, v: Slot)
    ensures |m[k := v]| == if k in m then |m| else |m| + 1
  {
    assert m[k := v].Keys == m.Keys + {k};
    assert |m[k := v]| == |m[k := v].Keys| && |m| == |m.Keys|;
  }

  const EMPTY := State(map[], {}, map[], map[], map[], 0, map[])

  // Two launches of workspace "w", check by check.
  const BOTH_CHECKED := EMPTY.(launches := map[1 := Checked("w"), 2 := Checked("w")])
  const ONE_RESERVED := BOTH_CHECKED.(inFlight := map["w" := Pending], ceiling := 2,
                                      launches := map[1 := Reserved("w"), 2 := Checked("w")])
  const BOTH_RESERVED := ONE_RESERVED.(launches := map[1 := Reserved("w"), 2 := Reserved("w")])
  const ROW := RunRow("w", Running)
  const ONE_LIVE := BOTH_RESERVED.(inFlight := map["w" := Live("run_1")], controllers := {"run_1"},
                                   drivers := map["run_1" := "w"], launches := map[2 := Reserved("w")],
                                   runs := map["run_1" := ROW])
  const BOTH_LIVE := ONE_LIVE.(inFlight := map["w" := Live("run_2")], controllers := {"run_1", "run_2"},
                               drivers := map["run_1" := "w", "run_2" := "w"], launches := map[],
                               runs := map["run_1" := ROW, "run_2" := ROW])

  lemma FirstReserves()
    ensures Enabled(BOTH_CHECKED, Admit(1, 2)) && Next(BOTH_CHECKED, Admit(1, 2)) == ONE_RESERVED
  {
  }

  lemma SecondReserves()
    ensures Enabled(ONE_RESERVED, Admit(2, 2)) && Next(ONE_RESERVED, Admit(2, 2)) == BOTH_RESERVED
  {
    assert |map["w" := Pending]| == 1;
  }

  lemma FirstGoesLive()
    ensures Enabled(BOTH_RESERVED, Create(1, "run_1")) && Next(BOTH_RESERVED, Create(1, "run_1")) == ONE_LIVE
  {
  }

  lemma SecondGoesLive()
    ensures Enabled(ONE_LIVE, Create(2, "run_2")) && Next(ONE_LIVE, Create(2, "run_2")) == BOTH_LIVE
  {
  }

  lemma BothCheckedIsTrue()
    ensures SlotsTrue(BOTH_CHECKED) && !SlotsTrue(BOTH_LIVE)
  {
    assert BOTH_LIVE.drivers["run_1"] == "w" && BOTH_LIVE.inFlight["w"] == Live("run_2");
    assert forall n, ws :: !Reserver(BOTH_CHECKED.launches, n, ws);
  }

  /** Both checked before either reserved, so both reserve. */
  lemma BothReserve(rest: seq<Step>)
    requires Path(BOTH_RESERVED, rest)
    ensures var steps := [Admit(1, 2), Admit(2, 2)] + rest;
            Path(BOTH_CHECKED, steps) && Run(BOTH_CHECKED, steps) == Run(BOTH_RESERVED, rest)
  {
    hide Next, Enabled;
    SecondReserves();
    RunCons(ONE_RESERVED, Admit(2, 2), rest, BOTH_RESERVED);
    FirstReserves();
    RunCons(BOTH_CHECKED, Admit(1, 2), [Admit(2, 2)] + rest, ONE_RESERVED);
    assert [Admit(1, 2)] + ([Admit(2, 2)] + rest) == [Admit(1, 2), Admit(2, 2)] + rest;
  }

  /** Two launches of one workspace that both checked before either reserved end with a running run
      that no slot holds. */
  lemma RaceLosesARun()
    ensures var steps := [Admit(1, 2), Admit(2, 2)] + [Create(1, "run_1"), Create(2, "run_2")];
            && SlotsTrue(BOTH_CHECKED) && Path(BOTH_CHECKED, steps)
            && Run(BOTH_CHECKED, steps) == BOTH_LIVE
    ensures BOTH_LIVE.runs["run_1"].status.Running? && BOTH_LIVE.inFlight == map["w" := Live("run_2")]
    ensures !SlotsTrue(BOTH_LIVE)
  {
    hide SlotsTrue, Next, Enabled;
    BothCheckedIsTrue();
    RunNone(BOTH_LIVE);
    SecondGoesLive();
    RunCons(ONE_LIVE, Create(2, "run_2"), [], BOTH_LIVE);
    FirstGoesLive();
    RunCons(BOTH_RESERVED, Create(1, "run_1"), [Create(2, "run_2")] + [], ONE_LIVE);
    assert [Create(1, "run_1")] + ([Create(2, "run_2")] + []) == [Create(1, "run_1"), Create(2, "run_2")];
    BothReserve([Create(1, "run_1"), Create(2, "run_2")]);
  }

  lemma RunNone(s: State)
    ensures Path(s, []) && Run(s, []) == s
  {
  }

  lemma RunCons(s: State, m: Step, rest: seq<Step>, next: State)
    requires Enabled(s, m) && Next(s, m) == next && Path(next, rest)
    ensures Path(s, [m] + rest) && Run(s, [m] + rest) == Run(next, rest)
  {
    assert ([m] + rest)[1..] == rest;
  }

  // Both launches have reserved "w"; the first is refused, and two more fill the ceiling.
  const REFUSED := EMPTY.(ceiling := 2, launches := map[2 := Reserved("w")])
  const V_CHECKED := EMPTY.(ceiling := 2, launches := map[2 := Reserved("w"), 3 := Checked("v")])
  const V_RESERVED := EMPTY.(ceiling := 2, inFlight := map["v" := Pending],
                             launches := map[2 := Reserved("w"), 3 := Reserved("v")])
  const U_CHECKED := EMPTY.(ceiling := 2, inFlight := map["v" := Pending],
                            launches := map[2 := Reserved("w"), 3 := Reserved("v"), 4 := Checked("u")])
  const FULL := EMPTY.(ceiling := 2, inFlight := map["v" := Pending, "u" := Pending],
                       launches := map[2 := Reserved("w"), 3 := Reserved("v"), 4 := Reserved("u")])
  const OVERFULL := EMPTY.(ceiling := 2, inFlight := map["v" := Pending, "u" := Pending, "w" := Live("run_2")],
                           controllers := {"run_2"}, drivers := map["run_2" := "w"], runs := map["run_2" := ROW],
                           launches := map[3 := Reserved("v"), 4 := Reserved("u")])

  lemma OneIsRefused()
    ensures Enabled(BOTH_RESERVED, Refuse(1)) && Next(BOTH_RESERVED, Refuse(1)) == REFUSED
    ensures Enabled(REFUSED, Check(3, "v")) && Next(REFUSED, Check(3, "v")) == V_CHECKED
  {
  }

  lemma TwoMoreReserve()
    ensures Enabled(V_CHECKED, Admit(3, 2)) && Next(V_CHECKED, Admit(3, 2)) == V_RESERVED
    ensures Enabled(V_RESERVED, Check(4, "u")) && Next(V_RESERVED, Check(4, "u")) == U_CHECKED
    ensures Enabled(U_CHECKED, Admit(4, 2)) && Next(U_CHECKED, Admit(4, 2)) == FULL
  {
    assert |map["v" := Pending]| == 1;
  }

  lemma TheOtherGoesLive()
    ensures Enabled(FULL, Create(2, "run_2")) && Next(FULL, Create(2, "run_2")) == OVERFULL
  {
    assert FULL.inFlight["w" := Live("run_2")] == OVERFULL.inFlight;
    assert FULL.launches - {2} == OVERFULL.launches;
  }

  lemma ThreeSlots()
    ensures |OVERFULL.inFlight| == 3 && OVERFULL.ceiling == 2
  {
    SlotSet(map["v" := Pending], "u", Pending);
    assert map["v" := Pending]["u" := Pending] == FULL.inFlight && |map["v" := Pending]| == 1;
    SlotSet(FULL.inFlight, "w", Live("run_2"));
    assert FULL.inFlight["w" := Live("run_2")] == OVERFULL.inFlight;
  }

  const LAST_FIVE := [Check(3, "v"), Admit(3, 2), Check(4, "u"), Admit(4, 2), Create(2, "run_2")]

  lemma LastFiveOverfill()
    ensures Path(REFUSED, LAST_FIVE) && Run(REFUSED, LAST_FIVE) == OVERFULL
  {
    hide Next, Enabled;
    RunNone(OVERFULL);
    TheOtherGoesLive();
    TwoMoreReserve();
    OneIsRefused();
    var create := [Create(2, "run_2")] + [];
    RunCons(FULL, Create(2, "run_2"), [], OVERFULL);
    RunCons(U_CHECKED, Admit(4, 2), create, FULL);
    var two := [Admit(4, 2)] + create;
    RunCons(V_RESERVED, Check(4, "u"), two, U_CHECKED);
    var three := [Check(4, "u")] + two;
    RunCons(V_CHECKED, Admit(3, 2), three, V_RESERVED);
    RunCons(REFUSED, Check(3, "v"), [Admit(3, 2)] + three, V_CHECKED);
    assert [Check(3, "v")] + ([Admit(3, 2)] + three) == LAST_FIVE;
  }

  /** After two raced reservations a refusal of the one drops the other's slot, two more launches fill the
      ceiling, and the other goes live all the same: three slots under a ceiling of two. */
  lemma RaceBreaksCeiling()
    ensures var steps := [Admit(1, 2), Admit(2, 2)] + ([Refuse(1)] + LAST_FIVE);
            && SlotsTrue(BOTH_CHECKED) && Path(BOTH_CHECKED, steps)
            && Run(BOTH_CHECKED, steps) == OVERFULL
    ensures |OVERFULL.inFlight| == 3 && OVERFULL.ceiling == 2
  {
    hide SlotsTrue, Next, Enabled, Path, Run;
    BothCheckedIsTrue();
    LastFiveOverfill();
    ThreeSlots();
    OneIsRefused();
    RunCons(BOTH_RESERVED, Refuse(1), LAST_FIVE, REFUSED);
    BothReserve([Refuse(1)] + LAST_FIVE);
  }

  // ----- queues -----

  ghost predicate LanesTrue(s: State) {
    forall ws :: ws in s.lanes ==> LaneTrue(s.lanes[ws])
  }

  lemma LaneOfTrue(s: State, ws: string)
    requires LanesTrue(s)
    ensures LaneTrue(LaneOf(s, ws))
  {
  }

  /** A direct edit of the governance files keeps the books of the queue. */
  lemma {:induction false} DirectEditKeepsLaneTrue(l: Lane, a: Action, hasCommit: bool, v: Verdict)
    requires LaneTrue(l)
    ensures LaneTrue(WithDisk(l, Direct(l.disk, a, hasCommit, v)))
  {
    hide Direct, Spent, Losses, Bound;
    var next := WithDisk(l, Direct(l.disk, a, hasCommit, v));
    forall i | 0 <= i < |next.file| ensures EntryTrue(next, next.file[i]) {
      var e := l.file[i];
      assert EntryTrue(l, e);
      if Spent(l.disk, e.action) {
        SpentStaysIff(l.disk, e.action, a, hasCommit, v);
      }
      BoundGrows(l, Direct(l.disk, a, hasCommit, v), e.action);
    }
  }

  lemma LaneSetTrue(s: State, t: State, ws: string)
    requires LanesTrue(s) && ws in t.lanes && LaneTrue(t.lanes[ws])
    requires forall w :: w != ws && w in t.lanes ==> w in s.lanes && t.lanes[w] == s.lanes[w]
    ensures LanesTrue(t)
  {
    hide LaneTrue;
  }

  lemma DrainedLanesTrue(s: State, ws: string, world: World, life: Life)
    requires LanesTrue(s)
    ensures LanesTrue(DrainLane(s, ws, world, life))
  {
    hide DrainFrom, LaneTrue, LaneOf, LanesTrue;
    LaneOfTrue(s, ws);
    var lane := LaneOf(s, ws);
    LaneFile(lane);
    DrainKeepsLaneTrue(lane, lane.file, 0, world, life);
    LaneSetTrue(s, DrainLane(s, ws, world, life), ws);
  }

  lemma LaneFile(l: Lane)
    requires LaneTrue(l)
    ensures DistinctIds(l.file) && ResolvedTo(l.file, l.file, 0)
  {
    hide EntryTrue, DistinctReservations;
  }

  lemma EditedLanesTrue(s: State, ws: string, a: Action, hasCommit: bool, v: Verdict)
    requires LanesTrue(s)
    ensures LanesTrue(SetDisk(s, ws, Direct(LaneOf(s, ws).disk, a, hasCommit, v)))
  {
    hide Direct, LaneTrue, LaneOf, LanesTrue;
    LaneOfTrue(s, ws);
    DirectEditKeepsLaneTrue(LaneOf(s, ws), a, hasCommit, v);
    LaneSetTrue(s, SetDisk(s, ws, Direct(LaneOf(s, ws).disk, a, hasCommit, v)), ws);
  }

  lemma AuthoredLanesTrue(s: State, ws: string, e: Entry, v: Verdict)
    requires LanesTrue(s) && Enabled(s, Author(ws, e, v))
    ensures LanesTrue(Next(s, Author(ws, e, v)))
  {
    hide Direct, LaneTrue, LaneOf, LanesTrue, MayEnqueue;
    if !(e.action.TicketClose? && v.gateBlocks) {
      if ws in s.inFlight {
        LaneOfTrue(s, ws);
        EnqueueKeepsLaneTrue(LaneOf(s, ws), e);
        LaneSetTrue(s, Next(s, Author(ws, e, v)), ws);
      } else {
        EditedLanesTrue(s, ws, e.action, true, v);
      }
    }
  }

  /** Every move, races and deaths in mid-drain included, keeps the books of every workspace's queue. */
  lemma {:induction false} MoveKeepsLanesTrue(s: State, m: Step)
    requires LanesTrue(s) && Enabled(s, m)
    ensures LanesTrue(Next(s, m))
  {
    hide Drain, Direct, LaneTrue, LaneOf, MayEnqueue;
    match m
    case Author(ws, e, v) => AuthoredLanesTrue(s, ws, e, v);
    case OwnEdit(r, a, hasCommit, v) => EditedLanesTrue(s, s.drivers[r], a, hasCommit, v);
    case ConfirmClose(r, id, v) => EditedLanesTrue(s, s.runs[r].workspace, TicketClose(id), true, v);
    case BoundaryDrain(r, world, life) => DrainedLanesTrue(s, s.drivers[r], world, life);
    case Settle(r, _, world, life) => DrainedLanesTrue(s, s.drivers[r], world, life);
    case Crash(r, world, life) => DrainedLanesTrue(s, s.drivers[r], world, life);
    case _ =>
  }

  ghost predicate HasQueued(l: Lane) {
    exists i :: 0 <= i < |l.file| && l.file[i].status.Queued?
  }

  /** Only a workspace with a run in flight has queued entries. */
  ghost predicate NoneStranded(s: State) {
    forall ws :: ws in s.lanes && HasQueued(s.lanes[ws]) ==> ws in s.inFlight
  }

  /** A drain of this queue would not come to its end: it throws, or the daemon dies. */
  predicate CutShort(l: Lane, world: World, life: Life) {
    !Drain(l, world, life).alive
  }

  /** The moves that free a slot without draining its queue to the end: a refused launch, a settle whose
      drain is cut short, and a restart. */
  ghost predicate Strands(s: State, m: Step)
    requires Enabled(s, m)
  {
    match m
    case Refuse(n) => HasQueued(LaneOf(s, s.launches[n].workspace))
    case Settle(r, _, world, life) => CutShort(LaneOf(s, s.drivers[r]), world, life)
    case Crash(r, world, life) =>
      || CutShort(LaneOf(s, s.drivers[r]), world, life)
      || exists ws :: ws in s.lanes && ws != s.drivers[r] && HasQueued(s.lanes[ws])
    case Boot => exists ws :: ws in s.lanes && HasQueued(s.lanes[ws])
    case _ => false
  }

  /** A drain leaves something queued exactly when it is cut short. */
  lemma QueuedIffCutShort(l: Lane, world: World, life: Life)
    requires LaneTrue(l)
    ensures HasQueued(Drain(l, world, life).lane) <==> CutShort(l, world, life)
  {
    hide DrainFrom, LaneTrue;
    LaneFile(l);
    var n := DrainResolvesPrefix(l, l.file, 0, world, life);
    var d := Drain(l, world, life);
    if !d.alive {
      DeathLeavesQueued(l, l.file, 0, world, life);
    }
  }

  lemma {:induction false} DeathLeavesQueued(lane: Lane, snapshot: seq<Entry>, i: nat, world: World, life: Life)
    requires DistinctIds(snapshot) && ResolvedTo(snapshot, lane.file, i)
    requires !DrainFrom(lane, snapshot, i, world, life).alive
    ensures HasQueued(DrainFrom(lane, snapshot, i, world, life).lane)
    decreases |snapshot| - i
  {
    hide DrainOne, ReplaceEntry;
    if i < |snapshot| {
      if !snapshot[i].status.Queued? {
        DeathLeavesQueued(lane, snapshot, i + 1, world, life);
      } else {
        TurnResolvesOne(lane, snapshot, i, world(snapshot[i].queuedId), life);
        var t := DrainOne(lane, snapshot[i], world(snapshot[i].queuedId), life);
        if t.resolved.Some? {
          DeathLeavesQueued(t.lane, snapshot, i + 1, world, t.life);
        } else {
          assert t.lane.file[i].status.Queued?;
        }
      }
    }
  }

  /** Whose queue a move may touch: everything else about `NoneStranded` is as before. */
  lemma StrandedAt(s: State, t: State, ws: string)
    requires NoneStranded(s) && (forall w :: w != ws ==> (w in t.lanes <==> w in s.lanes) && (w in t.inFlight <==> w in s.inFlight))
    requires forall w :: w != ws && w in t.lanes ==> t.lanes[w] == s.lanes[w]
    ensures NoneStranded(t) <==> (ws in t.lanes && HasQueued(t.lanes[ws]) ==> ws in t.inFlight)
  {
    hide HasQueued;
  }

  lemma SettleStrandsIff(s: State, r: string, status: RunStatus, world: World, life: Life)
    requires LanesTrue(s) && NoneStranded(s) && Enabled(s, Settle(r, status, world, life))
    ensures NoneStranded(Next(s, Settle(r, status, world, life))) <==> !Strands(s, Settle(r, status, world, life))
  {
    hide Drain, LaneTrue, HasQueued, LaneOf, CutShort;
    var ws := s.drivers[r];
    LaneOfTrue(s, ws);
    StrandedAt(s, Next(s, Settle(r, status, world, life)), ws);
    QueuedIffCutShort(LaneOf(s, ws), world, life);
  }

  lemma CrashStrandsIff(s: State, r: string, world: World, life: Life)
    requires LanesTrue(s) && Enabled(s, Crash(r, world, life))
    ensures NoneStranded(Next(s, Crash(r, world, life))) <==> !Strands(s, Crash(r, world, life))
  {
    hide Drain, LaneTrue, HasQueued, LaneOf, CutShort;
    var ws := s.drivers[r];
    LaneOfTrue(s, ws);
    QueuedIffCutShort(LaneOf(s, ws), world, life);
    var next := Next(s, Crash(r, world, life));
    assert next.inFlight == map[] && next.lanes[ws] == Drain(LaneOf(s, ws), world, life).lane;
    assert forall w :: w != ws ==> (w in next.lanes <==> w in s.lanes) && (w in s.lanes ==> next.lanes[w] == s.lanes[w]);
  }

  /** A move that only queues or edits under what is taken, or edits what is not, strands nothing. */
  lemma AuthorStrandsNone(s: State, ws: string, e: Entry, v: Verdict)
    requires NoneStranded(s) && Enabled(s, Author(ws, e, v))
    ensures NoneStranded(Next(s, Author(ws, e, v)))
  {
    hide Direct, MayEnqueue;
    if !(e.action.TicketClose? && v.gateBlocks) {
      if ws in s.inFlight {
        StrandedAt(s, Next(s, Author(ws, e, v)), ws);
      } else {
        EditStrandsNone(s, Next(s, Author(ws, e, v)), ws, Direct(LaneOf(s, ws).disk, e.action, true, v));
      }
    }
  }

  lemma EditStrandsNone(s: State, t: State, ws: string, disk: Disk)
    requires NoneStranded(s) && t.lanes == SetDisk(s, ws, disk).lanes && t.inFlight == s.inFlight
    ensures NoneStranded(t)
  {
    StrandedAt(s, t, ws);
    assert HasQueued(t.lanes[ws]) <==> HasQueued(LaneOf(s, ws));
  }

  lemma RefuseStrandsIff(s: State, n: nat)
    requires NoneStranded(s) && Enabled(s, Refuse(n))
    ensures NoneStranded(Next(s, Refuse(n))) <==> !Strands(s, Refuse(n))
  {
    var ws := s.launches[n].workspace;
    StrandedAt(s, Next(s, Refuse(n)), ws);
    if HasQueued(LaneOf(s, ws)) {
      assert ws in s.lanes;
    }
  }

  lemma EditMovesStrandNone(s: State, m: Step)
    requires NoneStranded(s) && Enabled(s, m) && (m.OwnEdit? || m.ConfirmClose?)
    ensures NoneStranded(Next(s, m))
  {
    hide Direct, HasQueued, LaneOf, NoneStranded, IsOpen;
    match m
    case OwnEdit(r, a, hasCommit, v) =>
      EditStrandsNone(s, Next(s, m), s.drivers[r], Direct(LaneOf(s, s.drivers[r]).disk, a, hasCommit, v));
    case ConfirmClose(r, id, v) =>
      if !v.gateBlocks {
        EditStrandsNone(s, Next(s, m), s.runs[r].workspace, Direct(LaneOf(s, s.runs[r].workspace).disk, TicketClose(id), true, v));
      }
  }

  /** With every queued entry under a run in flight, a move leaves it so exactly when it is not one of
      the stranding moves: a settle that drains to the end never strands. */
  lemma {:induction false} MoveStrandsIff(s: State, m: Step)
    requires SlotsTrue(s) && LanesTrue(s) && NoneStranded(s) && Enabled(s, m)
    ensures NoneStranded(Next(s, m)) <==> !Strands(s, m)
  {
    hide Drain, Direct, MayEnqueue, LaneTrue, HasQueued, CutShort, RunsTrue, LaunchesTrue, IsOpen;
    match m
    case Author(ws, e, v) => AuthorStrandsNone(s, ws, e, v);
    case OwnEdit(_, _, _, _) => EditMovesStrandNone(s, m);
    case ConfirmClose(_, _, _) => EditMovesStrandNone(s, m);
    case BoundaryDrain(r, world, life) => StrandedAt(s, Next(s, m), s.drivers[r]);
    case Settle(r, status, world, life) => SettleStrandsIff(s, r, status, world, life);
    case Crash(r, world, life) => CrashStrandsIff(s, r, world, life);
    case Refuse(n) => RefuseStrandsIff(s, n);
    case Boot =>
      if Strands(s, m) {
        var ws :| ws in s.lanes && HasQueued(s.lanes[ws]);
        assert ws in Next(s, m).lanes && ws !in Next(s, m).inFlight;
      }
    case _ =>
  }

  ghost predicate NeverStrands(s: State, steps: seq<Step>)
    requires Path(s, steps)
    decreases |steps|
  {
    steps == [] || (!Strands(s, steps[0]) && NeverStrands(Next(s, steps[0]), steps[1..]))
  }

  /** Over every run without overlapping reservations and stranding moves: the slot invariant holds, every
      queue's books are true, and only workspaces with a run in flight have queued entries. */
  lemma {:induction false} RunKeepsEverything(s: State, steps: seq<Step>)
    requires SlotsTrue(s) && LanesTrue(s) && NoneStranded(s)
    requires Path(s, steps) && NoOverlap(s, steps) && NeverStrands(s, steps)
    ensures SlotsTrue(Run(s, steps)) && LanesTrue(Run(s, steps)) && NoneStranded(Run(s, steps))
    decreases |steps|
  {
    if steps != [] {
      MoveKeepsSlotsIff(s, steps[0]);
      MoveKeepsLanesTrue(s, steps[0]);
      MoveStrandsIff(s, steps[0]);
      RunKeepsEverything(Next(s, steps[0]), steps[1..]);
    }
  }

  /** The queue's books survive every run, whatever races and crashes it holds. */
  lemma {:induction false} RunKeepsLanesTrue(s: State, steps: seq<Step>)
    requires LanesTrue(s) && Path(s, steps)
    ensures LanesTrue(Run(s, steps))
    decreases |steps|
  {
    if steps != [] {
      MoveKeepsLanesTrue(s, steps[0]);
      RunKeepsLanesTrue(Next(s, steps[0]), steps[1..]);
    }
  }

  /** An edit queued behind a pending launch that is then refused stays queued with nothing in flight. */
  lemma RefusedLaunchStrandsAnEdit()
    ensures var e := Entry("ticket-reconcile", TicketReconcile, Queued, 0);
            var s := EMPTY.(inFlight := map["w" := Pending], launches := map[1 := Reserved("w")], ceiling := 1,
                            lanes := map["w" := NO_LANE.(file := [e])]);
            && SlotsTrue(s) && LanesTrue(s) && NoneStranded(s) && Enabled(s, Refuse(1))
            && !NoneStranded(Next(s, Refuse(1)))
  {
    var e := Entry("ticket-reconcile", TicketReconcile, Queued, 0);
    var l := NO_LANE.(file := [e]);
    var s := EMPTY.(inFlight := map["w" := Pending], launches := map[1 := Reserved("w")], ceiling := 1,
                    lanes := map["w" := l]);
    assert |s.inFlight| == 1;
    assert Reserver(s.launches, 1, "w");
    assert EntryTrue(l, e) && LaneTrue(l);
    assert l.file[0].status.Queued? && HasQueued(LaneOf(s, "w"));
    MoveStrandsIff(s, Refuse(1));
  }
}
