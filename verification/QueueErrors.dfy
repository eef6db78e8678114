/** Exactly which queued edits end in error, and which of those without having changed a file, in one turn
    and over a crash followed by a recovery (packages/daemon/src/authoring-queue.ts). */
module QueueErrors {
  import opened Outcomes
  import opened Governance
  import opened GovernanceGuards
  import opened AuthoringQueue
  import opened QueueHistory

  // ----- one turn -----

  predicate Lasts(life: Life, actions: nat) {
    life.None? || life.value >= actions
  }

  predicate EndsInError(t: Turn) {
    t.resolved.Some? && t.resolved.value.status.Failed?
  }

  /** What makes an entry an error, by whether its edit throws: the edit, a commit git refuses, or a landed
      commit that cannot be reported; and the daemon lives to write that down. */
  predicate Spoiled(throws: bool, v: Verdict, life: Life) {
    if throws then Lasts(life, 2)
    else if !v.commits || v.report.BreaksBeforeStatus? then Lasts(life, 3)
    else v.report.BreaksAfterStatus? && Lasts(life, 4)
  }

  /** The daemon lives to write the entry's status, whatever it is. */
  predicate Resolves(throws: bool, life: Life) {
    Lasts(life, if throws then 2 else 3)
  }

  /** How a turn ends, by the guards of its edit. */
  lemma EndsInErrorIff(l: Lane, e: Entry, v: Verdict, life: Life)
    ensures EndsInError(DrainOne(l, e, v, life)) <==> Spoiled(Throws(l.disk, e.action, v), v, life)
    ensures DrainOne(l, e, v, life).resolved.Some? <==> Resolves(Throws(l.disk, e.action, v), life)
  {
    hide Apply, Throws, ReplaceEntry, Noted;
    ThrowsIff(l.disk, e.action, v);
  }

  /** What a turn does to files and log, by the guards of its edit. */
  lemma TouchesIff(l: Lane, e: Entry, v: Verdict, life: Life)
    requires e.status.Queued?
    ensures var t := DrainOne(l, e, v, life);
            && (t.lane.disk != l.disk <==> life != Some(0) && Changes(l.disk, e.action, v))
            && t.lane.touched == l.touched + Logged(e.queuedId, t.lane.disk != l.disk)
  {
    hide Apply, Changes, DrainOne, Achieves, Losses;
    ChangesIff(l.disk, e.action, v);
    var _ := TurnLogs(l, e, v, life);
    assert l.touched + [] == l.touched;
  }

  /** A turn ends in error with every file and the log as they were exactly when it is spoiled and its edit
      changes nothing. */
  lemma FailsCleanlyIff(l: Lane, e: Entry, v: Verdict, life: Life)
    requires e.status.Queued?
    ensures var t := DrainOne(l, e, v, life);
            EndsInError(t) && t.lane.disk == l.disk && t.lane.touched == l.touched
            <==> Spoiled(Throws(l.disk, e.action, v), v, life) && !Changes(l.disk, e.action, v)
  {
    hide Changes, Throws, DrainOne;
    EndsInErrorIff(l, e, v, life);
    TouchesIff(l, e, v, life);
    assert l.touched + [] == l.touched;
  }

  /** A turn ends in error over a changed file exactly when it is spoiled and its edit changes one. */
  lemma FailsAfterEffectIff(l: Lane, e: Entry, v: Verdict, life: Life)
    requires e.status.Queued?
    ensures var t := DrainOne(l, e, v, life);
            EndsInError(t) && t.lane.disk != l.disk && t.lane.touched == l.touched + [e.queuedId]
            <==> Spoiled(Throws(l.disk, e.action, v), v, life) && Changes(l.disk, e.action, v)
  {
    hide Changes, Throws, DrainOne;
    EndsInErrorIff(l, e, v, life);
    TouchesIff(l, e, v, life);
  }

  /** A turn ends in error over a landed commit exactly when the edit did not throw, git took it, and what
      follows the commit broke. */
  lemma FailsOverCommitIff(l: Lane, e: Entry, v: Verdict, life: Life)
    ensures var t := DrainOne(l, e, v, life);
            EndsInError(t) && t.lane.commits == l.commits + [e.queuedId]
            <==> && !Throws(l.disk, e.action, v) && v.commits
                 && (if v.report.BreaksBeforeStatus? then Lasts(life, 3) else v.report.BreaksAfterStatus? && Lasts(life, 4))
  {
    hide Apply, Throws, ReplaceEntry, Achieves, Losses;
    ThrowsIff(l.disk, e.action, v);
    assert |l.commits + [e.queuedId]| == |l.commits| + 1;
  }

  // ----- where a drain comes to an entry -----

  datatype Arrival = Arrival(lane: Lane, life: Life)

  /** The lane and the life left when a drain comes to entry `k`; None when the daemon dies before. */
  function Reach(lane: Lane, snapshot: seq<Entry>, i: nat, k: nat, world: World, life: Life): Option<Arrival>
    requires i <= k < |snapshot|
    decreases k - i
  {
    if i == k then Some(Arrival(lane, life))
    else if !snapshot[i].status.Queued? then Reach(lane, snapshot, i + 1, k, world, life)
    else
      var t := DrainOne(lane, snapshot[i], world(snapshot[i].queuedId), life);
      if t.resolved.None? then None else Reach(t.lane, snapshot, i + 1, k, world, t.life)
  }

  /** A turn logs no other entry. */
  lemma OthersUnlogged(l: Lane, e: Entry, v: Verdict, life: Life, id: string)
    requires e.status.Queued? && id != e.queuedId
    ensures id in DrainOne(l, e, v, life).lane.touched <==> id in l.touched
  {
    hide Apply, DrainOne, Achieves, Losses;
    var _ := TurnLogs(l, e, v, life);
  }

  lemma {:induction false} LaterTurnsUnlogged(lane: Lane, snapshot: seq<Entry>, k: nat, i: nat, world: World, life: Life)
    requires DistinctIds(snapshot) && k < i && k < |snapshot|
    ensures snapshot[k].queuedId in DrainFrom(lane, snapshot, i, world, life).lane.touched
            <==> snapshot[k].queuedId in lane.touched
    decreases |snapshot| - i
  {
    hide DrainOne, Apply;
    if i < |snapshot| {
      if !snapshot[i].status.Queued? {
        LaterTurnsUnlogged(lane, snapshot, k, i + 1, world, life);
      } else {
        var t := DrainOne(lane, snapshot[i], world(snapshot[i].queuedId), life);
        OthersUnlogged(lane, snapshot[i], world(snapshot[i].queuedId), life, snapshot[k].queuedId);
        if t.resolved.Some? {
          LaterTurnsUnlogged(t.lane, snapshot, k, i + 1, world, t.life);
        }
      }
    }
  }

  /** What a drain does to an entry is what its one turn does, where the drain comes to it. */
  lemma {:induction false} DrainAtEntry(lane: Lane, snapshot: seq<Entry>, i: nat, k: nat, world: World, life: Life)
    requires DistinctIds(snapshot) && ResolvedTo(snapshot, lane.file, i)
    requires i <= k < |snapshot| && snapshot[k].status.Queued?
    ensures var id := snapshot[k].queuedId;
            var d := DrainFrom(lane, snapshot, i, world, life).lane;
            var r := Reach(lane, snapshot, i, k, world, life);
            && |d.file| == |snapshot|
            && (r.Some? ==> (id in r.value.lane.touched <==> id in lane.touched))
            && if r.None? then d.file[k] == snapshot[k] && (id in d.touched <==> id in lane.touched)
               else
                 var t := DrainOne(r.value.lane, snapshot[k], world(id), r.value.life);
                 && d.file[k] == (if t.resolved.Some? then t.resolved.value else snapshot[k])
                 && (id in d.touched <==> id in t.lane.touched)
    decreases k - i
  {
    hide DrainOne, Apply, ReplaceEntry;
    if i == k {
      TurnResolvesOne(lane, snapshot, i, world(snapshot[i].queuedId), life);
      var t := DrainOne(lane, snapshot[i], world(snapshot[i].queuedId), life);
      if t.resolved.Some? {
        KeptByLaterTurns(t.lane, snapshot, k, i + 1, world, t.life);
        LaterTurnsUnlogged(t.lane, snapshot, k, i + 1, world, t.life);
      }
    } else if !snapshot[i].status.Queued? {
      DrainAtEntry(lane, snapshot, i + 1, k, world, life);
    } else {
      var t := DrainOne(lane, snapshot[i], world(snapshot[i].queuedId), life);
      TurnResolvesOne(lane, snapshot, i, world(snapshot[i].queuedId), life);
      OthersUnlogged(lane, snapshot[i], world(snapshot[i].queuedId), life, snapshot[k].queuedId);
      if t.resolved.Some? {
        DrainAtEntry(t.lane, snapshot, i + 1, k, world, t.life);
      }
    }
  }

  lemma {:induction false} UndisturbedArrives(lane: Lane, snapshot: seq<Entry>, i: nat, k: nat, world: World)
    requires i <= k < |snapshot|
    ensures Reach(lane, snapshot, i, k, world, None).Some?
    ensures Reach(lane, snapshot, i, k, world, None).value.life.None?
    decreases k - i
  {
    if i < k {
      if !snapshot[i].status.Queued? {
        UndisturbedArrives(lane, snapshot, i + 1, k, world);
      } else {
        UndisturbedArrives(DrainOne(lane, snapshot[i], world(snapshot[i].queuedId), None).lane, snapshot, i + 1, k, world);
      }
    }
  }

  // ----- a crash and its recovery -----

  /** If the drain comes to the entry with life left, its edit changes nothing there. */
  predicate Unchanging(r: Option<Arrival>, e: Entry, world: World) {
    r.Some? && r.value.life != Some(0) ==> !Changes(r.value.lane.disk, e.action, world(e.queuedId))
  }

  /** The drain comes to the entry and writes its status. */
  predicate Settles(r: Option<Arrival>, e: Entry, world: World) {
    r.Some? && Resolves(Throws(r.value.lane.disk, e.action, world(e.queuedId)), r.value.life)
  }

  /** The drain comes to the entry and spoils it. */
  predicate Spoils(r: Option<Arrival>, e: Entry, world: World) {
    r.Some? && Spoiled(Throws(r.value.lane.disk, e.action, world(e.queuedId)), world(e.queuedId), r.value.life)
  }

  /** One drain of an entry the log does not know. */
  lemma OneDrain(l: Lane, world: World, life: Life, k: nat)
    requires DistinctIds(l.file) && k < |l.file| && l.file[k].status.Queued? && l.file[k].queuedId !in l.touched
    ensures var e := l.file[k];
            var d := Drain(l, world, life).lane;
            var r := Reach(l, l.file, 0, k, world, life);
            && |d.file| == |l.file|
            && (e.queuedId !in d.touched <==> Unchanging(r, e, world))
            && (d.file[k].status.Queued? <==> !Settles(r, e, world))
            && (d.file[k].status.Queued? ==> d.file[k] == e)
            && (d.file[k].status.Failed? <==> Spoils(r, e, world))
  {
    hide DrainOne, Changes, Throws, Spoiled, Resolves;
    var e := l.file[k];
    DrainAtEntry(l, l.file, 0, k, world, life);
    var r := Reach(l, l.file, 0, k, world, life);
    if r.Some? {
      var v := world(e.queuedId);
      EndsInErrorIff(r.value.lane, e, v, r.value.life);
      TouchesIff(r.value.lane, e, v, r.value.life);
      TurnWritesOnce(r.value.lane, e, v, r.value.life);
      SpoiledResolves(Throws(r.value.lane.disk, e.action, v), v, r.value.life);
    }
  }

  lemma SpoiledResolves(throws: bool, v: Verdict, life: Life)
    ensures Spoiled(throws, v, life) ==> Resolves(throws, life)
  {
  }

  /** Wherever the daemon died in one drain and however the next one goes: an entry ends in error without
      having changed a file exactly when the first drain, if it came to it, changed nothing, and either
      spoiled it, or left it queued for the second to change nothing and spoil it. */
  lemma FailsWithoutEffectIff(l: Lane, world: World, life: Life, again: World, k: nat)
    requires DistinctIds(l.file) && k < |l.file| && l.file[k].status.Queued? && l.file[k].queuedId !in l.touched
    ensures var e := l.file[k];
            var crashed := Drain(l, world, life).lane;
            var recovered := Drain(crashed, again, None).lane;
            var first := Reach(l, l.file, 0, k, world, life);
            && |recovered.file| == |crashed.file| == |l.file|
            && (recovered.file[k].status.Failed? && e.queuedId !in recovered.touched
                <==> && Unchanging(first, e, world)
                     && if Settles(first, e, world) then Spoils(first, e, world)
                        else
                          var second := Reach(crashed, crashed.file, 0, k, again, None);
                          Unchanging(second, e, again) && Spoils(second, e, again))
  {
    hide DrainFrom, Reach, Unchanging, Settles, Spoils;
    var e := l.file[k];
    var crashed := Drain(l, world, life).lane;
    var n := DrainResolvesPrefix(l, l.file, 0, world, life);
    SameIdsDistinct(l.file, crashed.file, n);
    OneDrain(l, world, life, k);
    DrainContract(crashed, again);
    if crashed.file[k].status.Queued? {
      if e.queuedId !in crashed.touched {
        OneDrain(crashed, again, None, k);
      } else {
        TouchesStay(crashed, crashed.file, 0, again, None, e.queuedId);
      }
    } else {
      SettledUnlogged(crashed, crashed.file, 0, k, again);
    }
  }

  lemma {:induction false} TouchesStay(lane: Lane, snapshot: seq<Entry>, i: nat, world: World, life: Life, id: string)
    requires id in lane.touched
    ensures id in DrainFrom(lane, snapshot, i, world, life).lane.touched
    decreases |snapshot| - i
  {
    hide Apply;
    if i < |snapshot| {
      if !snapshot[i].status.Queued? {
        TouchesStay(lane, snapshot, i + 1, world, life, id);
      } else {
        var t := DrainOne(lane, snapshot[i], world(snapshot[i].queuedId), life);
        if t.resolved.Some? {
          TouchesStay(t.lane, snapshot, i + 1, world, t.life, id);
        }
      }
    }
  }

  /** A drain logs nothing for an entry that was not queued. */
  lemma {:induction false} SettledUnlogged(lane: Lane, snapshot: seq<Entry>, i: nat, k: nat, world: World)
    requires DistinctIds(snapshot) && k < |snapshot| && !snapshot[k].status.Queued?
    ensures snapshot[k].queuedId in DrainFrom(lane, snapshot, i, world, None).lane.touched
            <==> snapshot[k].queuedId in lane.touched
    decreases |snapshot| - i
  {
    hide DrainOne, Apply;
    if i < |snapshot| {
      if !snapshot[i].status.Queued? {
        SettledUnlogged(lane, snapshot, i + 1, k, world);
      } else {
        var t := DrainOne(lane, snapshot[i], world(snapshot[i].queuedId), None);
        OthersUnlogged(lane, snapshot[i], world(snapshot[i].queuedId), None, snapshot[k].queuedId);
        assert t.life.None? by {
          LifeStays(lane, snapshot[i], world(snapshot[i].queuedId));
        }
        if t.resolved.Some? {
          SettledUnlogged(t.lane, snapshot, i + 1, k, world);
        }
      }
    }
  }

  lemma LifeStays(lane: Lane, e: Entry, v: Verdict)
    ensures DrainOne(lane, e, v, None).life.None?
  {
    hide Apply;
  }

  // ----- concrete inputs -----

  const CREATE := Entry("ticket-create-0001", TicketCreate("0001", None), Queued, 0)
  const FRESH := NO_LANE.(file := [CREATE])

  lemma FreshIsTrue()
    ensures LaneTrue(FRESH)
  {
    assert FRESH.file[0] == CREATE && EntryTrue(FRESH, CREATE);
  }

  /** A drain of a queue with one entry is that entry's turn. */
  lemma OneEntryDrain(l: Lane, world: World, life: Life)
    requires |l.file| == 1 && l.file[0].status.Queued?
    ensures Drain(l, world, life).lane == DrainOne(l, l.file[0], world(l.file[0].queuedId), life).lane
  {
    hide DrainOne;
    var t := DrainOne(l, l.file[0], world(l.file[0].queuedId), life);
    assert DrainFrom(t.lane, l.file, 1, world, t.life).lane == t.lane;
  }

  const MADE := NO_DISK.(open := map["0001" := TicketFile(None, 0)], index := Index([Row("0001", None)], []), order := ["0001"])

  lemma CreateIsMade()
    ensures Apply(NO_DISK, CREATE.action, FINE) == Applied(MADE, None)
    ensures DrainOne(FRESH, CREATE, FINE, Some(1)).lane
         == FRESH.(disk := MADE, touched := [CREATE.queuedId], effects := [CREATE.queuedId])
  {
    assert Losses(NO_DISK, MADE) == {};
    assert "0001" in MADE.open;
  }

  lemma SecondCreateFails()
    ensures var crashed := FRESH.(disk := MADE, touched := [CREATE.queuedId], effects := [CREATE.queuedId]);
            var failed := CREATE.(status := Failed("already exists"));
            DrainOne(crashed, CREATE, FINE, None).lane == crashed.(file := [failed])
  {
    var crashed := FRESH.(disk := MADE, touched := [CREATE.queuedId], effects := [CREATE.queuedId]);
    assert "0001" in MADE.order;
    assert Losses(MADE, MADE) == {};
    assert ReplaceEntry([CREATE], CREATE.(status := Failed("already exists"))) == [CREATE.(status := Failed("already exists"))];
    assert crashed.touched + [] == crashed.touched && crashed.effects + [] == crashed.effects;
  }

  /** After a crash between an edit and its status the second drain reports an error for an edit that
      was made: an error does not mean no effect. */
  lemma ErrorDoesNotMeanNoEffect()
    ensures var w: World := _ => FINE;
            var recovered := Drain(Drain(FRESH, w, Some(1)).lane, w, None).lane;
            && LaneTrue(FRESH)
            && recovered.file == [CREATE.(status := Failed("already exists"))]
            && recovered.disk == MADE && recovered.effects == [CREATE.queuedId]
  {
    hide DrainOne, LaneTrue;
    var w: World := _ => FINE;
    FreshIsTrue();
    CreateIsMade();
    OneEntryDrain(FRESH, w, Some(1));
    SecondCreateFails();
    OneEntryDrain(Drain(FRESH, w, Some(1)).lane, w, None);
  }

  /** A repoint that cannot write its ticket file ends in error with the order changed. */
  lemma BrokenRepointChangesOrder()
    ensures var d := NO_DISK.(open := map["0001" := TicketFile(Some("p"), 0)]);
            Apply(d, TicketRepoint("0001", None, None), FINE.(breaks := At(1)))
            == Applied(d.(order := ["0001"]), Some("repoint failed"))
  {
  }

  const ONLY_FILE := NO_DISK.(open := map["0001" := TicketFile(None, 0)])
  const HALF_MADE := FRESH.(disk := ONLY_FILE, touched := [CREATE.queuedId], effects := [CREATE.queuedId])
  const LOST := HALF_MADE.(disk := NO_DISK, lost := multiset{"0001"})

  lemma HalfCreate()
    ensures DrainOne(FRESH, CREATE, FINE.(breaks := At(1)), Some(1)).lane == HALF_MADE
  {
    assert Losses(NO_DISK, ONLY_FILE) == {};
    assert "0001" in ONLY_FILE.open;
  }

  lemma ClosedAway()
    ensures WithDisk(HALF_MADE, Direct(ONLY_FILE, TicketClose("0001"), true, FINE.(breaks := At(2), stuck := {OpenFile}))) == LOST
  {
    assert map["0001" := TicketFile(None, 0)] - {"0001"} == map[];
    assert Losses(ONLY_FILE, NO_DISK) == {"0001"};
  }

  lemma MadeAgain()
    ensures DrainOne(LOST, CREATE, FINE, None).lane.effects == [CREATE.queuedId, CREATE.queuedId]
  {
    CreateIsMade();
    assert [CREATE.queuedId] + [CREATE.queuedId] == [CREATE.queuedId, CREATE.queuedId];
  }

  /** The bound of an edit's effects is met: a create half-way before a crash, a close of its ticket whose
      roll-back loses it, and the recovery makes the ticket a second time. */
  lemma LostTicketIsMadeTwice()
    ensures var half: World := _ => FINE.(breaks := At(1));
            var crashed := Drain(FRESH, half, Some(1)).lane;
            var lost := WithDisk(crashed, Direct(crashed.disk, TicketClose("0001"), true, FINE.(breaks := At(2), stuck := {OpenFile})));
            && LaneTrue(FRESH) && lost.lost == multiset{"0001"}
            && Drain(lost, _ => FINE, None).lane.effects == [CREATE.queuedId, CREATE.queuedId]
  {
    hide DrainOne, LaneTrue, Direct, WithDisk;
    FreshIsTrue();
    HalfCreate();
    ClosedAway();
    MadeAgain();
    OneEntryDrain(FRESH, _ => FINE.(breaks := At(1)), Some(1));
    OneEntryDrain(LOST, _ => FINE, None);
  }
}
