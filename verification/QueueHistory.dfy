/** What enqueues, drains and crashes keep over any history of a workspace's queue. */
module QueueHistory {
  import opened Outcomes
  import opened Governance
  import opened GovernanceGuards
  import opened AuthoringQueue

  // ----- one drain -----

  /** The same entry but for its status. */
  predicate SameWork(a: Entry, b: Entry) {
    b == a.(status := b.status)
  }

  /** The first `n` entries are resolved, those that already were are untouched, and the rest is as
      it was. */
  ghost predicate ResolvedTo(was: seq<Entry>, now: seq<Entry>, n: nat) {
    && |now| == |was| && n <= |was|
    && (forall i :: 0 <= i < n ==> SameWork(was[i], now[i]) && !now[i].status.Queued?)
    && (forall i :: 0 <= i < |was| && (i >= n || !was[i].status.Queued?) ==> now[i] == was[i])
  }

  /** The entries at [i, n) that were queued, as they are now, in queue order. */
  function Resolutions(was: seq<Entry>, now: seq<Entry>, i: nat, n: nat): seq<Entry>
    requires |now| == |was| && n <= |was|
    decreases n - i
  {
    if i >= n then []
    else (if was[i].status.Queued? then [now[i]] else []) + Resolutions(was, now, i + 1, n)
  }

  lemma ReplaceIsUpdate(file: seq<Entry>, i: nat, e: Entry)
    requires DistinctIds(file) && i < |file| && file[i].queuedId == e.queuedId
    ensures ReplaceEntry(file, e) == file[i := e]
  {
    forall k | 0 <= k < |file| ensures ReplaceEntry(file, e)[k] == file[i := e][k] {
      if k < i {
        assert file[k].queuedId != file[i].queuedId;
      } else if k > i {
        assert file[i].queuedId != file[k].queuedId;
      }
    }
  }

  lemma SameIdsDistinct(was: seq<Entry>, now: seq<Entry>, n: nat)
    requires DistinctIds(was) && ResolvedTo(was, now, n)
    ensures DistinctIds(now)
    ensures forall i :: 0 <= i < |was| ==> SameWork(was[i], now[i])
  {
    assert forall i :: 0 <= i < |was| ==> now[i].queuedId == was[i].queuedId;
  }

  /** Whatever a turn writes, the file ends as one rewrite of its entry. */
  lemma TurnWritesOnce(lane: Lane, e: Entry, v: Verdict, life: Life)
    ensures var t := DrainOne(lane, e, v, life);
            if t.resolved.None? then t.lane.file == lane.file
            else
              && SameWork(e, t.resolved.value) && !t.resolved.value.status.Queued?
              && t.lane.file == ReplaceEntry(lane.file, t.resolved.value)
  {
    hide Apply;
    var t := DrainOne(lane, e, v, life);
    if t.resolved.Some? {
      assert ReplaceEntry(ReplaceEntry(lane.file, e.(status := Committed)), t.resolved.value)
          == ReplaceEntry(lane.file, t.resolved.value);
    }
  }

  /** One entry's turn leaves the file alone or resolves exactly that entry in place. */
  lemma TurnResolvesOne(lane: Lane, snapshot: seq<Entry>, i: nat, v: Verdict, life: Life)
    requires DistinctIds(snapshot) && ResolvedTo(snapshot, lane.file, i) && i < |snapshot|
    requires snapshot[i].status.Queued?
    ensures var t := DrainOne(lane, snapshot[i], v, life);
            if t.resolved.None? then t.lane.file == lane.file
            else
              && SameWork(snapshot[i], t.resolved.value) && !t.resolved.value.status.Queued?
              && t.lane.file == lane.file[i := t.resolved.value]
              && ResolvedTo(snapshot, t.lane.file, i + 1)
  {
    hide DrainOne, ReplaceEntry;
    SameIdsDistinct(snapshot, lane.file, i);
    TurnWritesOnce(lane, snapshot[i], v, life);
    var t := DrainOne(lane, snapshot[i], v, life);
    if t.resolved.Some? {
      ReplaceIsUpdate(lane.file, i, t.resolved.value);
    }
  }

  /** At any point of a drain the file is the original with a prefix of its queued entries resolved,
      and what the drain returns is those resolutions in queue order. */
  lemma {:induction false} DrainResolvesPrefix(lane: Lane, snapshot: seq<Entry>, i: nat, world: World, life: Life)
    returns (n: nat)
    requires DistinctIds(snapshot) && ResolvedTo(snapshot, lane.file, i)
    ensures var d := DrainFrom(lane, snapshot, i, world, life);
            && i <= n && ResolvedTo(snapshot, d.lane.file, n)
            && (d.alive ==> n == |snapshot|)
            && d.resolved == Resolutions(snapshot, d.lane.file, i, n)
    decreases |snapshot| - i
  {
    hide DrainOne, Apply, ReplaceEntry;
    if i >= |snapshot| {
      return i;
    }
    if !snapshot[i].status.Queued? {
      n := DrainResolvesPrefix(lane, snapshot, i + 1, world, life);
      return;
    }
    var t := DrainOne(lane, snapshot[i], world(snapshot[i].queuedId), life);
    TurnResolvesOne(lane, snapshot, i, world(snapshot[i].queuedId), life);
    if t.resolved.None? {
      return i;
    }
    n := DrainResolvesPrefix(t.lane, snapshot, i + 1, world, t.life);
    KeptByLaterTurns(t.lane, snapshot, i, i + 1, world, t.life);
  }

  /** Later turns of a drain do not touch an entry already passed. */
  lemma {:induction false} KeptByLaterTurns(lane: Lane, snapshot: seq<Entry>, k: nat, i: nat, world: World, life: Life)
    requires DistinctIds(snapshot) && ResolvedTo(snapshot, lane.file, i) && k < i
    ensures |DrainFrom(lane, snapshot, i, world, life).lane.file| == |lane.file|
    ensures DrainFrom(lane, snapshot, i, world, life).lane.file[k] == lane.file[k]
    decreases |snapshot| - i
  {
    hide DrainOne, Apply, ReplaceEntry;
    if i < |snapshot| {
      if !snapshot[i].status.Queued? {
        KeptByLaterTurns(lane, snapshot, k, i + 1, world, life);
      } else {
        TurnResolvesOne(lane, snapshot, i, world(snapshot[i].queuedId), life);
        var t := DrainOne(lane, snapshot[i], world(snapshot[i].queuedId), life);
        if t.resolved.Some? {
          KeptByLaterTurns(t.lane, snapshot, k, i + 1, world, t.life);
        }
      }
    }
  }

  /** A daemon that does not die finishes its drain. */
  lemma {:induction false} UndisturbedDrainFinishes(lane: Lane, snapshot: seq<Entry>, i: nat, world: World)
    ensures DrainFrom(lane, snapshot, i, world, None).alive
    decreases |snapshot| - i
  {
    if i < |snapshot| {
      if !snapshot[i].status.Queued? {
        UndisturbedDrainFinishes(lane, snapshot, i + 1, world);
      } else {
        UndisturbedDrainFinishes(DrainOne(lane, snapshot[i], world(snapshot[i].queuedId), None).lane, snapshot, i + 1, world);
      }
    }
  }

  /** The drain's contract: exactly the entries that were queued change, and only in status; nothing
      stays queued; the resolved entries come back in queue order. */
  lemma {:induction false} DrainContract(lane: Lane, world: World)
    requires DistinctIds(lane.file)
    ensures var d := Drain(lane, world, None);
            && |d.lane.file| == |lane.file| && DistinctIds(d.lane.file)
            && (forall i :: 0 <= i < |lane.file| ==>
                  && SameWork(lane.file[i], d.lane.file[i])
                  && !d.lane.file[i].status.Queued?
                  && (d.lane.file[i] != lane.file[i] <==> lane.file[i].status.Queued?))
            && d.resolved == Resolutions(lane.file, d.lane.file, 0, |lane.file|)
  {
    UndisturbedDrainFinishes(lane, lane.file, 0, world);
    var n := DrainResolvesPrefix(lane, lane.file, 0, world, None);
    SameIdsDistinct(lane.file, Drain(lane, world, None).lane.file, n);
  }

  // ----- effects happen at most once -----

  /** What was made stays made by any queued edit, unless it is the ticket that is lost. */
  lemma SpentStays(d: Disk, a: Action, other: Action, v: Verdict)
    requires Spent(d, a)
    ensures Spent(Apply(d, other, v).disk, a)
            <==> !(a.TicketCreate? && a.reservedId in Losses(d, Apply(d, other, v).disk))
  {
    hide Apply, Direct, Spent, Losses, HasFile;
    QueuedIsDirect(d, other, v);
    SpentStaysIff(d, a, other, true, v);
    if a.TicketCreate? {
      NothingLost(d, d);
    }
  }

  lemma NothingLost(d: Disk, next: Disk)
    requires next == d
    ensures Losses(d, next) == {}
  {
  }

  /** How often the ticket of a create was lost. */
  function LostOf(l: Lane, a: Action): nat {
    if a.TicketCreate? then l.lost[a.reservedId] else 0
  }

  /** How often an edit can have been made: once for each time its ticket was lost, and once if it stands. */
  function Bound(l: Lane, a: Action): nat {
    LostOf(l, a) + if Spent(l.disk, a) then 1 else 0
  }

  /** What the logs say of one entry. */
  ghost predicate EntryTrue(l: Lane, e: Entry) {
    OnceOnly(e.action) ==>
      && multiset(l.effects)[e.queuedId] <= Bound(l, e.action)
      && multiset(l.commits)[e.queuedId] <= multiset(l.effects)[e.queuedId]
      && (e.status.Committed? ==> e.queuedId in l.effects)
  }

  ghost predicate LaneTrue(l: Lane) {
    && DistinctIds(l.file) && DistinctReservations(l.file)
    && (forall i :: 0 <= i < |l.file| ==> EntryTrue(l, l.file[i]))
    && (forall id :: id in l.touched || id in l.effects || id in l.commits ==> id in HeldIds(l.file))
  }

  /** An entry's edit is made at most once more than its ticket was lost, and at most once if it was not. */
  lemma AtMostOnce(l: Lane, i: nat)
    requires LaneTrue(l) && i < |l.file| && OnceOnly(l.file[i].action)
    ensures multiset(l.effects)[l.file[i].queuedId] <= LostOf(l, l.file[i].action) + 1
    ensures multiset(l.commits)[l.file[i].queuedId] <= LostOf(l, l.file[i].action) + 1
  {
    assert EntryTrue(l, l.file[i]);
  }

  /** A step that makes what was not made, or loses what was, keeps the bound. */
  lemma BoundGrows(l: Lane, next: Disk, a: Action)
    requires Spent(l.disk, a) && !Spent(next, a) ==> a.TicketCreate? && a.reservedId in Losses(l.disk, next)
    ensures Bound(WithDisk(l, next), a) >= Bound(l, a)
    ensures Achieves(l.disk, a, next) ==> Bound(WithDisk(l, next), a) >= Bound(l, a) + 1
  {
    hide Spent, Losses;
  }

  /** Moves of a queue's history: an enqueue, or a drain the daemon may die in. */
  datatype Move = Enqueue(entry: Entry) | DrainMove(world: World, life: Life)

  ghost predicate Allowed(l: Lane, m: Move) {
    m.Enqueue? ==> MayEnqueue(l.file, m.entry)
  }

  function After(l: Lane, m: Move): Lane {
    match m
    case Enqueue(e) => l.(file := l.file + [e])
    case DrainMove(world, life) => Drain(l, world, life).lane
  }

  lemma {:induction false} EnqueueKeepsLaneTrue(l: Lane, e: Entry)
    requires LaneTrue(l) && MayEnqueue(l.file, e)
    ensures LaneTrue(After(l, Enqueue(e)))
  {
    var file := l.file + [e];
    assert forall i :: 0 <= i < |l.file| ==> file[i] == l.file[i];
    assert file[|l.file|] == e;
    assert e.queuedId !in l.effects && e.queuedId !in l.commits;
    forall id | id in HeldIds(l.file) ensures id in HeldIds(file) {
      var i :| 0 <= i < |l.file| && l.file[i].queuedId == id;
      assert file[i].queuedId == id;
    }
    forall i | 0 <= i < |file| ensures EntryTrue(l.(file := file), file[i]) {
      if i < |l.file| {
        assert EntryTrue(l, l.file[i]);
      }
    }
  }

  /** What one entry's turn adds to the logs: its id to the touched ones when a file changed, to the effects
      when its edit was made, and to the commits only after an edit that reported no error. */
  lemma TurnLogs(l: Lane, e: Entry, v: Verdict, life: Life) returns (committed: bool)
    requires e.status.Queued?
    ensures var t := DrainOne(l, e, v, life);
            var a := Apply(l.disk, e.action, v);
            && (life == Some(0) ==> t.lane == l)
            && (life != Some(0) ==>
                  && t.lane.disk == a.disk && t.lane.lost == l.lost + multiset(Losses(l.disk, a.disk))
                  && t.lane.touched == l.touched + Logged(e.queuedId, a.disk != l.disk)
                  && t.lane.effects == l.effects + Logged(e.queuedId, Achieves(l.disk, e.action, a.disk)))
            && t.lane.commits == l.commits + Logged(e.queuedId, committed)
            && (committed ==> a.error.None? && life != Some(0))
            && (t.resolved.Some? ==> SameWork(e, t.resolved.value) && (t.resolved.value.status.Committed? ==> committed))
  {
    hide Apply, Achieves, Losses;
    var t := DrainOne(l, e, v, life);
    committed := t.lane.commits != l.commits;
    assert l.commits + [] == l.commits;
    assert |l.commits + [e.queuedId]| == |l.commits| + 1;
  }

  lemma LogCount(log: seq<string>, id: string, logged: bool, other: string)
    ensures multiset(log + Logged(id, logged))[other] == multiset(log)[other] + (if logged && id == other then 1 else 0)
    ensures other in log + Logged(id, logged) <==> other in log || (logged && id == other)
  {
    assert multiset(log + Logged(id, logged)) == multiset(log) + multiset(Logged(id, logged));
  }

  /** A turn keeps the books of its own entry and of every other one. */
  lemma {:induction false} TurnKeepsEntryTrue(l: Lane, e: Entry, v: Verdict, life: Life, other: Entry, after: Entry)
    requires e.status.Queued? && EntryTrue(l, other)
    requires if other.queuedId == e.queuedId
             then other == e && SameWork(e, after)
                  && (after.status.Committed? ==> DrainOne(l, e, v, life).resolved == Some(after))
             else after == other
    ensures EntryTrue(DrainOne(l, e, v, life).lane, after)
  {
    hide Apply, DrainOne, Spent, Losses, Achieves;
    var committed := TurnLogs(l, e, v, life);
    assert after.action == other.action && after.queuedId == other.queuedId;
    LogCount(l.commits, e.queuedId, committed, other.queuedId);
    if OnceOnly(other.action) && life != Some(0) {
      var next := Apply(l.disk, e.action, v).disk;
      LogCount(l.effects, e.queuedId, Achieves(l.disk, e.action, next), other.queuedId);
      if Spent(l.disk, other.action) {
        SpentStays(l.disk, other.action, e.action, v);
      }
      BoundGrows(l, next, other.action);
      SameBound(WithDisk(l, next), DrainOne(l, e, v, life).lane, other.action);
      if OnceOnly(e.action) {
        AchievedUnlessThrown(l.disk, e.action, v);
      }
    }
  }

  lemma SameBound(l: Lane, t: Lane, a: Action)
    requires t.disk == l.disk && t.lost == l.lost
    ensures Bound(t, a) == Bound(l, a)
  {
  }

  lemma {:induction false} TurnKeepsFile(l: Lane, i: nat, v: Verdict, life: Life)
    requires LaneTrue(l) && i < |l.file| && l.file[i].status.Queued?
    ensures var t := DrainOne(l, l.file[i], v, life);
            && (t.resolved.Some? ==> SameWork(l.file[i], t.resolved.value) && !t.resolved.value.status.Queued?)
            && t.lane.file == if t.resolved.Some? then l.file[i := t.resolved.value] else l.file
    ensures var file := DrainOne(l, l.file[i], v, life).lane.file;
            && DistinctIds(file) && DistinctReservations(file)
            && (forall id :: id in HeldIds(l.file) ==> id in HeldIds(file))
  {
    hide DrainOne, EntryTrue, ReplaceEntry;
    TurnWritesOnce(l, l.file[i], v, life);
    var t := DrainOne(l, l.file[i], v, life);
    if t.resolved.Some? {
      ReplaceIsUpdate(l.file, i, t.resolved.value);
    }
    var file := t.lane.file;
    assert forall k :: 0 <= k < |file| ==> SameWork(l.file[k], file[k]);
    assert forall k :: 0 <= k < |file| && Reserves(file[k]) ==> Reserves(l.file[k]);
    forall id | id in HeldIds(l.file) ensures id in HeldIds(file) {
      var k :| 0 <= k < |l.file| && l.file[k].queuedId == id;
      assert file[k].queuedId == id;
    }
  }

  lemma {:induction false} TurnKeepsLaneTrue(l: Lane, i: nat, v: Verdict, life: Life)
    requires LaneTrue(l) && i < |l.file| && l.file[i].status.Queued?
    ensures LaneTrue(DrainOne(l, l.file[i], v, life).lane)
  {
    hide DrainOne, Apply, EntryTrue, Achieves, Losses, DistinctReservations;
    var e := l.file[i];
    var lane := DrainOne(l, e, v, life).lane;
    TurnKeepsFile(l, i, v, life);
    var committed := TurnLogs(l, e, v, life);
    assert e.queuedId in HeldIds(l.file);
    forall k | 0 <= k < |lane.file| ensures EntryTrue(lane, lane.file[k]) {
      assert EntryTrue(l, l.file[k]);
      if k < i {
        assert l.file[k].queuedId != l.file[i].queuedId;
      } else if k > i {
        assert l.file[i].queuedId != l.file[k].queuedId;
      }
      TurnKeepsEntryTrue(l, e, v, life, l.file[k], lane.file[k]);
    }
  }

  lemma {:induction false} DrainKeepsLaneTrue(l: Lane, snapshot: seq<Entry>, i: nat, world: World, life: Life)
    requires LaneTrue(l) && DistinctIds(snapshot) && ResolvedTo(snapshot, l.file, i)
    ensures LaneTrue(DrainFrom(l, snapshot, i, world, life).lane)
    decreases |snapshot| - i
  {
    hide DrainOne, Apply, LaneTrue, ReplaceEntry;
    if i < |snapshot| {
      assert l.file[i] == snapshot[i];
      if !snapshot[i].status.Queued? {
        DrainKeepsLaneTrue(l, snapshot, i + 1, world, life);
      } else {
        var t := DrainOne(l, snapshot[i], world(snapshot[i].queuedId), life);
        TurnKeepsLaneTrue(l, i, world(snapshot[i].queuedId), life);
        TurnResolvesOne(l, snapshot, i, world(snapshot[i].queuedId), life);
        if t.resolved.Some? {
          DrainKeepsLaneTrue(t.lane, snapshot, i + 1, world, t.life);
        }
      }
    }
  }

  /** A history: every enqueue allowed where it happens. */
  ghost predicate History(l: Lane, moves: seq<Move>)
    decreases |moves|
  {
    moves == [] || (Allowed(l, moves[0]) && History(After(l, moves[0]), moves[1..]))
  }

  function Replay(l: Lane, moves: seq<Move>): Lane
    decreases |moves|
  {
    if moves == [] then l else Replay(After(l, moves[0]), moves[1..])
  }

  /** Over any history of enqueues and drains, with the daemon dying anywhere, queue ids and the
      reservations of uncommitted creates stay distinct, and every ticket close and priority create is made
      at most once, every ticket create at most once more than its ticket was lost. */
  lemma {:induction false} HistoryKeepsLaneTrue(l: Lane, moves: seq<Move>)
    requires LaneTrue(l) && History(l, moves)
    ensures LaneTrue(Replay(l, moves))
    decreases |moves|
  {
    if moves != [] {
      match moves[0] {
        case Enqueue(e) => EnqueueKeepsLaneTrue(l, e);
        case DrainMove(world, life) => DrainKeepsLaneTrue(l, l.file, 0, world, life);
      }
      HistoryKeepsLaneTrue(After(l, moves[0]), moves[1..]);
    }
  }

  /** Recovery: wherever the daemon died, one undisturbed drain later nothing is queued, and the entries
      resolved before the crash are as they were left. */
  lemma {:induction false} RecoveryDrains(l: Lane, world: World, life: Life, again: World)
    requires LaneTrue(l)
    ensures var crashed := Drain(l, world, life).lane;
            var recovered := Drain(crashed, again, None).lane;
            && LaneTrue(recovered) && |recovered.file| == |crashed.file| == |l.file|
            && forall i :: 0 <= i < |l.file| ==>
                 && SameWork(l.file[i], recovered.file[i]) && !recovered.file[i].status.Queued?
                 && (!crashed.file[i].status.Queued? ==> recovered.file[i] == crashed.file[i])
  {
    var n := DrainResolvesPrefix(l, l.file, 0, world, life);
    DrainKeepsLaneTrue(l, l.file, 0, world, life);
    var crashed := Drain(l, world, life).lane;
    SameIdsDistinct(l.file, crashed.file, n);
    DrainContract(crashed, again);
    DrainKeepsLaneTrue(crashed, crashed.file, 0, again, None);
  }
}
