/** Teardown of a run's terminal surfaces (packages/daemon/src/launcher.ts): whatever the session host
    answers, every stored session ends exactly once. */
module Teardown {
  import opened Outcomes
  import opened Text

  datatype Session = Session(persona: string, sessionRef: string, workspaceRef: Option<string>)

  /** The host's answers, by how many calls came before: the error of a closing call (None: it worked),
      and whether a legacy session still runs. */
  datatype Host = Host(call: nat -> Option<string>, stillRunning: nat -> bool, closesWorkspaces: bool)

  datatype Failure = Failure(persona: string, sessionRef: string, error: string)

  datatype How = Closed | FailedWith(error: string) | AlreadyGone

  /** Which sessions ended, how, and by which of the calls to the host, oldest first. */
  datatype Log = Start | Then(before: Log, session: Session, how: How, via: nat)

  // ----- order -----

  function NormalizePersona(input: Option<string>): Option<string> {
    if input.None? then None
    else
      var value := Lower(Trim(input.value));
      if value == "" then None else Some(value)
  }

  function Initiator(opt: Option<string>): string {
    var normal := NormalizePersona(opt);
    if normal.Some? then normal.value else "oscar"
  }

  predicate Initiates(s: Session, initiator: string) {
    NormalizePersona(Some(s.persona)) == Some(initiator)
  }

  /** Personas are compared trimmed and in lower case; without one that says something it is Oscar. */
  lemma InitiatorIs(opt: Option<string>, s: Session)
    ensures Initiator(opt) == if opt.None? || AllBlank(opt.value) then "oscar" else Lower(Trim(opt.value))
    ensures Initiates(s, Initiator(opt)) <==> Lower(Trim(s.persona)) == Initiator(opt)
  {
    TrimOfBlank(s.persona);
    if opt.Some? {
      TrimOfBlank(opt.value);
    }
  }

  predicate InitiatorsLast(sessions: seq<Session>, initiator: string) {
    forall i, j :: 0 <= i < j < |sessions| && Initiates(sessions[i], initiator) ==> Initiates(sessions[j], initiator)
  }

  function Those(sessions: seq<Session>, initiator: string, initiating: bool): (r: seq<Session>)
    ensures forall s :: s in r <==> s in sessions && (Initiates(s, initiator) <==> initiating)
  {
    if sessions == [] then []
    else
      var front := Those(sessions[..|sessions| - 1], initiator, initiating);
      var s := sessions[|sessions| - 1];
      assert forall x :: x in sessions <==> x in sessions[..|sessions| - 1] || x == s;
      if Initiates(s, initiator) <==> initiating then front + [s] else front
  }

  function OrderSessionsForTeardown(sessions: seq<Session>, initiator: string): (r: seq<Session>)
    ensures forall s :: s in r <==> s in sessions
    ensures InitiatorsLast(r, initiator)
  {
    Those(sessions, initiator, false) + Those(sessions, initiator, true)
  }

  lemma {:induction false} SidesSum(sessions: seq<Session>, initiator: string)
    ensures multiset(Those(sessions, initiator, false)) + multiset(Those(sessions, initiator, true)) == multiset(sessions)
  {
    hide Initiates;
    if sessions != [] {
      SidesSum(sessions[..|sessions| - 1], initiator);
      assert sessions == sessions[..|sessions| - 1] + [sessions[|sessions| - 1]];
    }
  }

  /** Ordering loses and repeats no session. */
  lemma {:induction false} OrderIsPermutation(sessions: seq<Session>, initiator: string)
    ensures multiset(OrderSessionsForTeardown(sessions, initiator)) == multiset(sessions)
  {
    hide Those;
    SidesSum(sessions, initiator);
  }

  // ----- how sessions end -----

  function SessionsOf(log: Log): seq<Session> {
    match log
    case Start => []
    case Then(before, s, _, _) => SessionsOf(before) + [s]
  }

  function Refs(sessions: seq<Session>): set<string> {
    set s | s in sessions :: s.sessionRef
  }

  /** The refs reported closed, in the order they ended. */
  function ClosedRefs(log: Log): seq<string> {
    match log
    case Start => []
    case Then(before, s, how, _) => if how.Closed? then ClosedRefs(before) + [s.sessionRef] else ClosedRefs(before)
  }

  function Failures(log: Log): seq<Failure> {
    match log
    case Start => []
    case Then(before, s, how, _) =>
      if how.FailedWith? then Failures(before) + [Failure(s.persona, s.sessionRef, how.error)] else Failures(before)
  }

  ghost predicate EndedAs(log: Log, s: Session, how: How) {
    log.Then? && ((log.session == s && log.how == how) || EndedAs(log.before, s, how))
  }

  /** The sessions of which nothing is reported. */
  function Gone(log: Log): seq<Session> {
    match log
    case Start => []
    case Then(before, s, how, _) => if how.AlreadyGone? then Gone(before) + [s] else Gone(before)
  }

  /** Reported closed are exactly the refs of the sessions that ended so, and failed exactly those that did,
      each with its error; of every other session its kill failed because it had gone already. */
  lemma {:induction false} ReportsAre(log: Log, ref: string, f: Failure, g: Session)
    ensures ref in ClosedRefs(log) <==> exists s :: EndedAs(log, s, Closed) && s.sessionRef == ref
    ensures f in Failures(log) <==> exists s :: EndedAs(log, s, FailedWith(f.error)) && s.persona == f.persona && s.sessionRef == f.sessionRef
    ensures g in Gone(log) <==> EndedAs(log, g, AlreadyGone)
    ensures |ClosedRefs(log)| + |Failures(log)| + |Gone(log)| == |SessionsOf(log)|
  {
    if log.Then? {
      ReportsAre(log.before, ref, f, g);
      EndedStep(log);
    }
  }

  lemma EndedStep(log: Log)
    requires log.Then?
    ensures EndedAs(log, log.session, log.how)
    ensures forall s, how :: EndedAs(log.before, s, how) ==> EndedAs(log, s, how)
    ensures forall s, how :: EndedAs(log, s, how) ==> (s == log.session && how == log.how) || EndedAs(log.before, s, how)
  {
  }

  /** Every entry is what the host answered to a call aimed at its session. */
  ghost predicate Honest(log: Log, trace: seq<seq<Session>>, host: Host) {
    match log
    case Start => true
    case Then(before, s, how, via) =>
      && Honest(before, trace, host)
      && via < |trace| && s in trace[via]
      && match how {
           case Closed => host.call(via).None?
           case FailedWith(error) => host.call(via) == Some(error) && (Durable(s) || host.stillRunning(via))
           case AlreadyGone => host.call(via).Some? && !Durable(s) && !host.stillRunning(via)
         }
  }

  lemma {:induction false} HonestStays(log: Log, trace: seq<seq<Session>>, more: seq<seq<Session>>, host: Host)
    requires Honest(log, trace, host)
    ensures Honest(log, trace + more, host)
  {
    if log.Then? {
      HonestStays(log.before, trace, more, host);
      assert (trace + more)[log.via] == trace[log.via];
    }
  }

  predicate Durable(s: Session) {
    s.workspaceRef.Some? && s.workspaceRef.value != ""
  }

  predicate InGroup(s: Session, ref: string) {
    Durable(s) && s.workspaceRef.value == ref
  }

  /** In the group of `ref`, no call that may close an initiator comes before the first attempt on a
      session that is not one. */
  ghost predicate Orderly(trace: seq<seq<Session>>, sessions: seq<Session>, ref: string, initiator: string) {
    forall i, s, t ::
      (&& 0 <= i < |trace| && s in trace[i] && InGroup(s, ref) && Initiates(s, initiator)
       && t in sessions && InGroup(t, ref) && !Initiates(t, initiator))
      ==> AttemptedBefore(trace, i, t)
  }

  ghost predicate AttemptedBefore(trace: seq<seq<Session>>, i: nat, t: Session) {
    exists k :: 0 <= k < i && k < |trace| && t in trace[k]
  }

  // ----- the calls -----

  class RunTeardown {
    const host: Host
    var closed: seq<string>
    var failed: seq<Failure>
    var liveRefs: set<string>
    ghost var ended: Log
    var trace: seq<seq<Session>>           // the sessions each closing call was aimed at

    ghost predicate Valid()
      reads this
    {
      closed == ClosedRefs(ended) && failed == Failures(ended) && Honest(ended, trace, host)
    }

    constructor (host: Host, liveRefs: set<string>)
      ensures Valid() && this.host == host && this.liveRefs == liveRefs && ended == Start && trace == []
    {
      this.host, this.liveRefs := host, liveRefs;
      closed, failed, ended, trace := [], [], Start, [];
    }

    method EndClosed(s: Session, ghost via: nat)
      requires Valid() && via < |trace| && s in trace[via] && host.call(via).None?
      modifies this`closed, this`liveRefs, this`ended
      ensures Valid() && ended == Then(old(ended), s, Closed, via) && liveRefs == old(liveRefs) - {s.sessionRef}
      ensures SessionsOf(ended) == SessionsOf(old(ended)) + [s]
    {
      closed := closed + [s.sessionRef];
      liveRefs := liveRefs - {s.sessionRef};
      ended := Then(ended, s, Closed, via);
    }

    method EndFailed(s: Session, error: string, ghost via: nat)
      requires Valid() && via < |trace| && s in trace[via] && host.call(via) == Some(error)
      requires Durable(s) || host.stillRunning(via)
      modifies this`failed, this`liveRefs, this`ended
      ensures Valid() && ended == Then(old(ended), s, FailedWith(error), via) && liveRefs == old(liveRefs) - {s.sessionRef}
      ensures SessionsOf(ended) == SessionsOf(old(ended)) + [s]
    {
      failed := failed + [Failure(s.persona, s.sessionRef, error)];
      liveRefs := liveRefs - {s.sessionRef};
      ended := Then(ended, s, FailedWith(error), via);
    }

    /** One call to the host, aimed at these sessions. */
    method Call(targets: seq<Session>) returns (error: Option<string>)
      requires Valid()
      modifies this`trace
      ensures Valid() && trace == old(trace) + [targets] && error == host.call(|old(trace)|)
    {
      HonestStays(ended, trace, [targets], host);
      error := host.call(|trace|);
      trace := trace + [targets];
    }

    /** A session without a workspace: kill it; a failed kill of one that no longer runs is no failure. */
    method CloseLegacy(s: Session) returns (how: How)
      requires Valid() && !Durable(s)
      modifies this
      ensures Valid() && ended == Then(old(ended), s, how, |old(trace)|) && trace == old(trace) + [[s]]
      ensures liveRefs == old(liveRefs) - {s.sessionRef} && SessionsOf(ended) == SessionsOf(old(ended)) + [s]
    {
      var n := |trace|;
      var error := Call([s]);
      if error.None? {
        EndClosed(s, n);
        return Closed;
      }
      if !host.stillRunning(n) {
        liveRefs := liveRefs - {s.sessionRef};
        ended := Then(ended, s, AlreadyGone, n);
        return AlreadyGone;
      }
      EndFailed(s, error.value, n);
      how := FailedWith(error.value);
    }

    /** A session with a workspace, by its stored refs; a failure is the caller's to settle. */
    method CloseDurableSurface(s: Session) returns (error: Option<string>)
      requires Valid()
      modifies this
      ensures Valid() && trace == old(trace) + [[s]] && error == host.call(|old(trace)|)
      ensures error.None? ==>
                && ended == Then(old(ended), s, Closed, |old(trace)|) && SessionsOf(ended) == SessionsOf(old(ended)) + [s]
                && liveRefs == old(liveRefs) - {s.sessionRef}
      ensures error.Some? ==> ended == old(ended) && liveRefs == old(liveRefs)
    {
      ghost var n := |trace|;
      error := Call([s]);
      if error.None? {
        EndClosed(s, n);
      }
    }

    /** A host without a workspace primitive: surface by surface, and here a failure is final. */
    method CloseOneByOne(sessions: seq<Session>)
      requires Valid() && forall s :: s in sessions ==> Durable(s)
      modifies this
      ensures Valid() && SessionsOf(ended) == SessionsOf(old(ended)) + sessions
      ensures liveRefs == old(liveRefs) - Refs(sessions) && trace == old(trace) + Singles(sessions)
    {
      hide SessionsOf, ClosedRefs, Failures, Honest, Splits, Singles, Refs;
      SplitsNone();
      for i := 0 to |sessions|
        invariant Valid() && SessionsOf(ended) == SessionsOf(old(ended)) + sessions[..i]
        invariant liveRefs == old(liveRefs) - Refs(sessions[..i])
        invariant trace == old(trace) + Singles(sessions[..i])
      {
        ghost var n := |trace|;
        var error := CloseDurableSurface(sessions[i]);
        if error.Some? {
          EndFailed(sessions[i], error.value, n);
        }
        OneMore(sessions, i, SessionsOf(old(ended)), old(trace));
      }
      assert sessions[..|sessions|] == sessions;
    }

    /** What is left of a group: the whole workspace in one call, where the host has one, and surface by
        surface where it has none. */
    method CloseDurableWorkspace(ref: string, sessions: seq<Session>)
      requires Valid() && forall s :: s in sessions ==> InGroup(s, ref)
      modifies this
      ensures Valid() && SessionsOf(ended) == SessionsOf(old(ended)) + sessions
      ensures liveRefs == old(liveRefs) - Refs(sessions)
      ensures trace == old(trace) + WorkspaceCalls(sessions, host)
      ensures host.closesWorkspaces ==> trace == old(trace) + [sessions]
      ensures !host.closesWorkspaces ==>
                && |trace| == |old(trace)| + |sessions|
                && forall i :: 0 <= i < |sessions| ==> trace[|old(trace)| + i] == [sessions[i]]
    {
      hide SessionsOf, ClosedRefs, Failures, Honest, Splits, Singles, Refs;
      SplitsNone();
      SinglesAre(sessions);
      if !host.closesWorkspaces {
        CloseOneByOne(sessions);
        return;
      }
      ghost var n := |trace|;
      var error := Call(sessions);
      for i := 0 to |sessions|
        invariant Valid() && SessionsOf(ended) == SessionsOf(old(ended)) + sessions[..i]
        invariant liveRefs == old(liveRefs) - Refs(sessions[..i])
        invariant trace == old(trace) + [sessions]
      {
        if error.None? {
          EndClosed(sessions[i], n);
        } else {
          EndFailed(sessions[i], error.value, n);
        }
        OneMore(sessions, i, SessionsOf(old(ended)), old(trace));
      }
      assert sessions[..|sessions|] == sessions;
    }

    /** Each surface by itself; the sessions whose call failed are left over. */
    method CloseSurfaces(prefix: seq<Session>) returns (remainder: seq<Session>, ghost done: seq<Session>)
      requires Valid()
      modifies this
      ensures Valid() && SessionsOf(ended) == SessionsOf(old(ended)) + done
      ensures Splits(prefix, done, remainder) && remainder == Unclosed(prefix, host, |old(trace)|)
      ensures liveRefs == old(liveRefs) - Refs(done)
      ensures trace == old(trace) + Singles(prefix)
    {
      hide SessionsOf, ClosedRefs, Failures, Honest, Splits, Singles, Refs, Unclosed;
      SplitsNone();
      NoneUnclosed(host, |trace|);
      remainder, done := [], [];
      for i := 0 to |prefix|
        invariant Valid() && SessionsOf(ended) == SessionsOf(old(ended)) + done
        invariant Splits(prefix[..i], done, remainder) && remainder == Unclosed(prefix[..i], host, |old(trace)|)
        invariant liveRefs == old(liveRefs) - Refs(done)
        invariant trace == old(trace) + Singles(prefix[..i])
      {
        var error := CloseDurableSurface(prefix[i]);
        OneMore(prefix, i, SessionsOf(old(ended)), old(trace));
        SplitsSnoc(prefix[..i], done, remainder, prefix[i]);
        UnclosedSnoc(prefix[..i], prefix[i], host, |old(trace)|);
        CallsMade(old(trace), prefix[..i]);
        Regroup(SessionsOf(old(ended)), done, [prefix[i]]);
        if error.Some? {
          remainder := remainder + [prefix[i]];
        } else {
          done := done + [prefix[i]];
        }
      }
      assert prefix[..|prefix|] == prefix;
    }

    /** One workspace group: each surface but the last by itself, then the last and whatever failed as
        the workspace. */
    method CloseGroup(ref: string, sessions: seq<Session>, ghost initiator: string) returns (ghost calls: seq<seq<Session>>)
      requires Valid() && (forall s :: s in sessions ==> InGroup(s, ref)) && InitiatorsLast(sessions, initiator)
      modifies this
      ensures Valid() && multiset(SessionsOf(ended)) == multiset(SessionsOf(old(ended))) + multiset(sessions)
      ensures liveRefs == old(liveRefs) - Refs(sessions)
      ensures trace == old(trace) + calls && Aims(calls, sessions) && Orderly(calls, sessions, ref, initiator)
      ensures sessions != [] ==>
                var front := sessions[..|sessions| - 1];
                var left := Unclosed(front, host, |old(trace)|) + [sessions[|sessions| - 1]];
                calls == Singles(front) + WorkspaceCalls(left, host)
    {
      hide SessionsOf, ClosedRefs, Failures, Honest, Splits, Singles, Refs, Orderly, Aims, WorkspaceCalls, Unclosed;
      if |sessions| == 0 {
        EmptyGroup(sessions, ref, initiator);
        return [];
      }
      var prefix := sessions[..|sessions| - 1];
      var remainder, done := CloseSurfaces(prefix);
      SplitGroup(sessions, done, remainder);
      remainder := remainder + [sessions[|sessions| - 1]];
      CloseDurableWorkspace(ref, remainder);
      calls := Singles(prefix) + WorkspaceCalls(remainder, host);
      Regroup(old(trace), Singles(prefix), WorkspaceCalls(remainder, host));
      AimsOfSingles(prefix, sessions);
      AimsOfCalls(remainder, sessions, host);
      MultisetOfThree(SessionsOf(old(ended)), done, remainder, sessions);
      AimsOfBoth(Singles(prefix), WorkspaceCalls(remainder, host), sessions);
      GroupIsOrderly(calls, sessions, ref, initiator);
    }

    method CloseLegacies(legacy: seq<Session>)
      requires Valid() && forall s :: s in legacy ==> !Durable(s)
      modifies this
      ensures Valid() && SessionsOf(ended) == SessionsOf(old(ended)) + legacy
      ensures liveRefs == old(liveRefs) - Refs(legacy) && trace == old(trace) + Singles(legacy)
    {
      hide SessionsOf, ClosedRefs, Failures, Honest, Splits, Singles, Refs;
      SplitsNone();
      for i := 0 to |legacy|
        invariant Valid() && SessionsOf(ended) == SessionsOf(old(ended)) + legacy[..i]
        invariant liveRefs == old(liveRefs) - Refs(legacy[..i])
        invariant trace == old(trace) + Singles(legacy[..i])
      {
        var how := CloseLegacy(legacy[i]);
        OneMore(legacy, i, SessionsOf(old(ended)), old(trace));
      }
      assert legacy[..|legacy|] == legacy;
    }

    method CloseGroups(keys: seq<string>, groups: map<string, seq<Session>>, ghost all: seq<Session>, ghost initiator: string)
      requires Valid() && GroupsTrue(keys, groups, all, initiator) && Settled(trace, all, [], initiator)
      modifies this
      ensures Valid() && multiset(SessionsOf(ended)) == multiset(SessionsOf(old(ended))) + Total(keys, groups)
      ensures liveRefs == old(liveRefs) - GroupRefs(keys, groups)
      ensures Settled(trace, all, keys, initiator)
    {
      hide SessionsOf, ClosedRefs, Failures, Honest, Settled, GroupsTrue, Orderly, Aims, InitiatorsLast, InGroup, Total, GroupRefs, Refs;
      NoKeys(groups);
      KeysAreGroups(keys, groups, all, initiator);
      for j := 0 to |keys|
        invariant Valid() && multiset(SessionsOf(ended)) == multiset(SessionsOf(old(ended))) + Total(keys[..j], groups)
        invariant liveRefs == old(liveRefs) - GroupRefs(keys[..j], groups)
        invariant Settled(trace, all, keys[..j], initiator)
      {
        ghost var before := trace;
        GroupAt(keys, groups, all, initiator, j);
        ghost var calls := CloseGroup(keys[j], groups[keys[j]], initiator);
        SettleGroup(before, calls, all, keys, groups, j, initiator);
      }
      assert keys[..|keys|] == keys;
    }

    /** Close all of a run's surfaces: sessions without a workspace first, then group by group. Only the
        live refs outlast a teardown; its lists start empty. */
    method CloseRunSurfaces(sessions: seq<Session>, initiatorPersona: Option<string>)
      requires Valid() && ended == Start && trace == []
      modifies this
      ensures Valid() && multiset(SessionsOf(ended)) == multiset(sessions)
      ensures liveRefs == old(liveRefs) - Refs(sessions)
      ensures forall ref :: Orderly(trace, sessions, ref, Initiator(initiatorPersona))
    {
      hide SessionsOf, ClosedRefs, Failures, Honest, Singles, Refs, Orderly, Settled, GroupsTrue, Total, GroupRefs, InitiatorsLast;
      hide OrderSessionsForTeardown, Initiator;
      NothingEnded();
      var initiator := Initiator(initiatorPersona);
      var ordered := OrderSessionsForTeardown(sessions, initiator);
      OrderIsPermutation(sessions, initiator);
      var legacy, keys, groups := GroupSessions(ordered, initiator);
      CloseLegacies(legacy);
      LegacyCallsSettle(legacy, ordered, initiator);
      assert trace == [] + Singles(legacy) == Singles(legacy);
      KeysAreGroups(keys, groups, ordered, initiator);
      CloseGroups(keys, groups, ordered, initiator);
      RefsOfTotal(ordered, legacy, keys, groups);
      SettledIsOrderly(trace, ordered, sessions, keys, initiator);
    }
  }

  // ----- groups -----

  /** Each session in its workspace's group, groups in the order their first session came. */
  method GroupSessions(ordered: seq<Session>, ghost initiator: string)
    returns (legacy: seq<Session>, keys: seq<string>, groups: map<string, seq<Session>>)
    requires InitiatorsLast(ordered, initiator)
    ensures forall s :: s in legacy ==> !Durable(s) && s.workspaceRef in {None, Some("")}
    ensures forall s :: s in ordered && s.workspaceRef in {None, Some("")} ==> s in legacy
    ensures GroupsTrue(keys, groups, ordered, initiator)
    ensures multiset(legacy) + Total(keys, groups) == multiset(ordered)
  {
    hide GroupsTrue, Total, InitiatorsLast;
    NoSessions(initiator);
    legacy, keys, groups := [], [], map[];
    for i := 0 to |ordered|
      invariant forall s :: s in legacy ==> !Durable(s) && s.workspaceRef in {None, Some("")}
      invariant forall j :: 0 <= j < i && ordered[j].workspaceRef in {None, Some("")} ==> ordered[j] in legacy
      invariant GroupsTrue(keys, groups, ordered[..i], initiator) && forall k :: k in keys ==> k in groups
      invariant multiset(legacy) + Total(keys, groups) == multiset(ordered[..i])
    {
      var s := ordered[i];
      assert ordered[..i + 1] == ordered[..i] + [s];
      if Durable(s) {
        var ref := s.workspaceRef.value;
        KeysAreGroups(keys, groups, ordered[..i], initiator);
        if ref in groups {
          InitiatorsLastPrefix(ordered, i + 1, initiator);
          JoinGroup(keys, groups, ordered[..i], s, initiator);
          groups := groups[ref := groups[ref] + [s]];
        } else {
          NewGroup(keys, groups, ordered[..i], s, initiator);
          keys := keys + [ref];
          groups := groups[ref := [s]];
        }
      } else {
        LegacyKeepsGroups(keys, groups, ordered[..i], s, initiator);
        legacy := legacy + [s];
      }
    }
    assert ordered[..|ordered|] == ordered;
  }

  lemma NoSessions(initiator: string)
    ensures GroupsTrue([], map[], [], initiator) && Total([], map[]) == multiset{}
  {
  }

  lemma InitiatorsLastPrefix(sessions: seq<Session>, n: nat, initiator: string)
    requires InitiatorsLast(sessions, initiator) && n <= |sessions|
    ensures InitiatorsLast(sessions[..n], initiator)
  {
  }

  lemma LegacyKeepsGroups(keys: seq<string>, groups: map<string, seq<Session>>, all: seq<Session>, s: Session, initiator: string)
    requires GroupsTrue(keys, groups, all, initiator) && !Durable(s)
    ensures GroupsTrue(keys, groups, all + [s], initiator)
  {
  }

  ghost predicate GroupsTrue(keys: seq<string>, groups: map<string, seq<Session>>, all: seq<Session>, initiator: string) {
    && (forall i, j :: 0 <= i < j < |keys| ==> keys[i] != keys[j])
    && (forall k :: k in keys <==> k in groups)
    && (forall k :: k in groups ==> InitiatorsLast(groups[k], initiator))
    && (forall k, s :: k in groups && s in groups[k] ==> InGroup(s, k) && s in all)
    && (forall s :: s in all && Durable(s) ==> s.workspaceRef.value in groups && s in groups[s.workspaceRef.value])
  }

  lemma NoKeys(groups: map<string, seq<Session>>)
    ensures Total([], groups) == multiset{} && GroupRefs([], groups) == {}
  {
  }

  lemma KeysAreGroups(keys: seq<string>, groups: map<string, seq<Session>>, all: seq<Session>, initiator: string)
    requires GroupsTrue(keys, groups, all, initiator)
    ensures forall k :: k in keys ==> k in groups
  {
  }

  lemma GroupAt(keys: seq<string>, groups: map<string, seq<Session>>, all: seq<Session>, initiator: string, j: nat)
    requires GroupsTrue(keys, groups, all, initiator) && j < |keys|
    ensures keys[j] in groups && InitiatorsLast(groups[keys[j]], initiator)
    ensures forall s :: s in groups[keys[j]] ==> InGroup(s, keys[j])
    ensures Total(keys[..j + 1], groups) == Total(keys[..j], groups) + multiset(groups[keys[j]])
    ensures GroupRefs(keys[..j + 1], groups) == GroupRefs(keys[..j], groups) + Refs(groups[keys[j]])
  {
    assert keys[..j + 1][..j] == keys[..j];
  }

  function Total(keys: seq<string>, groups: map<string, seq<Session>>): multiset<Session>
    requires forall k :: k in keys ==> k in groups
  {
    if keys == [] then multiset{}
    else Total(keys[..|keys| - 1], groups) + multiset(groups[keys[|keys| - 1]])
  }

  function GroupRefs(keys: seq<string>, groups: map<string, seq<Session>>): set<string>
    requires forall k :: k in keys ==> k in groups
  {
    if keys == [] then {}
    else GroupRefs(keys[..|keys| - 1], groups) + Refs(groups[keys[|keys| - 1]])
  }

  function Singles(sessions: seq<Session>): seq<seq<Session>> {
    seq(|sessions|, i requires 0 <= i < |sessions| => [sessions[i]])
  }

  lemma SinglesAre(sessions: seq<Session>)
    ensures |Singles(sessions)| == |sessions|
    ensures forall i :: 0 <= i < |sessions| ==> Singles(sessions)[i] == [sessions[i]]
  {
  }

  /** The sessions whose closing call, from this one on, failed. */
  function Unclosed(sessions: seq<Session>, host: Host, at: nat): seq<Session> {
    if sessions == [] then []
    else
      Unclosed(sessions[..|sessions| - 1], host, at)
      + if host.call(at + |sessions| - 1).Some? then [sessions[|sessions| - 1]] else []
  }

  lemma {:induction false} UnclosedFailed(sessions: seq<Session>, host: Host, at: nat, s: Session)
    ensures s in Unclosed(sessions, host, at) <==> exists k :: 0 <= k < |sessions| && sessions[k] == s && host.call(at + k) != None
  {
    if sessions != [] {
      UnclosedFailed(sessions[..|sessions| - 1], host, at, s);
      assert host.call(at + |sessions| - 1) != None <==> host.call(at + |sessions| - 1).Some?;
    }
  }

  lemma NoneUnclosed(host: Host, at: nat)
    ensures Unclosed([], host, at) == []
  {
  }

  lemma UnclosedSnoc(sessions: seq<Session>, s: Session, host: Host, at: nat)
    ensures Unclosed(sessions + [s], host, at)
         == if host.call(at + |sessions|).Some? then Unclosed(sessions, host, at) + [s] else Unclosed(sessions, host, at)
  {
    assert (sessions + [s])[..|sessions|] == sessions;
  }

  lemma CallsMade(before: seq<seq<Session>>, sessions: seq<Session>)
    ensures |before + Singles(sessions)| == |before| + |sessions|
  {
  }

  function WorkspaceCalls(sessions: seq<Session>, host: Host): (calls: seq<seq<Session>>)
    ensures Aims(calls, sessions)
  {
    if host.closesWorkspaces then [sessions] else Singles(sessions)
  }

  /** What one more session adds, whatever came before. */
  lemma OneMore(sessions: seq<Session>, i: nat, before: seq<Session>, calls: seq<seq<Session>>)
    requires i < |sessions|
    ensures sessions[..i + 1] == sessions[..i] + [sessions[i]]
    ensures (before + sessions[..i]) + [sessions[i]] == before + sessions[..i + 1]
    ensures (calls + Singles(sessions[..i])) + [[sessions[i]]] == calls + Singles(sessions[..i + 1])
    ensures Refs(sessions[..i + 1]) == Refs(sessions[..i]) + {sessions[i].sessionRef}
  {
    assert sessions[..i + 1] == sessions[..i] + [sessions[i]];
    SinglesSnoc(sessions[..i], sessions[i]);
  }

  lemma Regroup<T>(a: seq<T>, b: seq<T>, c: seq<T>)
    ensures (a + b) + c == a + (b + c)
  {
  }

  lemma EmptyGroup(sessions: seq<Session>, ref: string, initiator: string)
    requires sessions == []
    ensures Aims([], sessions) && Orderly([], sessions, ref, initiator) && Refs(sessions) == {}
    ensures forall t: seq<seq<Session>> :: t + [] == t
  {
  }

  lemma AimsOfSingles(prefix: seq<Session>, sessions: seq<Session>)
    requires forall s :: s in prefix ==> s in sessions
    ensures Aims(Singles(prefix), sessions)
  {
  }

  lemma AimsOfCalls(remainder: seq<Session>, sessions: seq<Session>, host: Host)
    requires forall s :: s in remainder ==> s in sessions
    ensures Aims(WorkspaceCalls(remainder, host), sessions)
  {
  }

  lemma NothingEnded()
    ensures SessionsOf(Start) == []
  {
  }

  lemma SinglesSnoc(sessions: seq<Session>, s: Session)
    ensures Singles(sessions + [s]) == Singles(sessions) + [[s]]
  {
  }

  lemma SplitsNone()
    ensures Splits([], [], []) && Singles([]) == [] && Refs([]) == {}
  {
  }

  ghost predicate Splits(whole: seq<Session>, done: seq<Session>, left: seq<Session>) {
    multiset(done) + multiset(left) == multiset(whole)
  }

  lemma SplitsSnoc(whole: seq<Session>, done: seq<Session>, left: seq<Session>, s: Session)
    requires Splits(whole, done, left)
    ensures Splits(whole + [s], done + [s], left) && Splits(whole + [s], done, left + [s])
    ensures Refs(done + [s]) == Refs(done) + {s.sessionRef}
  {
  }

  lemma MultisetOfThree(a: seq<Session>, done: seq<Session>, left: seq<Session>, whole: seq<Session>)
    requires Splits(whole, done, left)
    ensures multiset((a + done) + left) == multiset(a) + multiset(whole)
  {
  }

  /** Every call is aimed at these sessions only. */
  ghost predicate Aims(trace: seq<seq<Session>>, sessions: seq<Session>) {
    forall i :: 0 <= i < |trace| ==> forall s :: s in trace[i] ==> s in sessions
  }

  lemma AimsOfBoth(a: seq<seq<Session>>, b: seq<seq<Session>>, sessions: seq<Session>)
    requires Aims(a, sessions) && Aims(b, sessions)
    ensures Aims(a + b, sessions)
  {
  }

  lemma SplitGroup(sessions: seq<Session>, done: seq<Session>, left: seq<Session>)
    requires |sessions| > 0 && Splits(sessions[..|sessions| - 1], done, left)
    ensures var all := left + [sessions[|sessions| - 1]];
            && Splits(sessions, done, all) && Refs(done) + Refs(all) == Refs(sessions)
            && (forall s :: s in all ==> s in sessions)
  {
    var last := sessions[|sessions| - 1];
    assert sessions == sessions[..|sessions| - 1] + [last];
    SplitsSnoc(sessions[..|sessions| - 1], done, left, last);
    SplitsHolds(sessions, done, left + [last]);
  }

  lemma SplitsHolds(whole: seq<Session>, done: seq<Session>, left: seq<Session>)
    requires Splits(whole, done, left)
    ensures forall s :: s in whole <==> s in done || s in left
    ensures Refs(done) + Refs(left) == Refs(whole)
  {
    assert forall s :: s in whole <==> s in multiset(whole);
    assert forall s :: s in done <==> s in multiset(done);
    assert forall s :: s in left <==> s in multiset(left);
  }

  /** Each session but the last attempted in turn, then only what is left: initiators come after. */
  lemma GroupIsOrderly(trace: seq<seq<Session>>, sessions: seq<Session>, ref: string, initiator: string)
    requires InitiatorsLast(sessions, initiator) && |sessions| > 0
    requires Singles(sessions[..|sessions| - 1]) <= trace && Aims(trace, sessions)
    ensures Orderly(trace, sessions, ref, initiator)
  {
    assert forall k :: 0 <= k < |sessions| - 1 ==> trace[k] == Singles(sessions[..|sessions| - 1])[k] == [sessions[k]];
    forall i, s, t | 0 <= i < |trace| && s in trace[i] && Initiates(s, initiator) && t in sessions && !Initiates(t, initiator)
      ensures AttemptedBefore(trace, i, t)
    {
      var a :| 0 <= a < |sessions| && sessions[a] == s && (i < |sessions| - 1 ==> a == i);
      var b :| 0 <= b < |sessions| && sessions[b] == t;
      assert b < a;
      assert t in trace[b];
    }
  }

  lemma {:induction false} TotalElsewhere(keys: seq<string>, groups: map<string, seq<Session>>, k: string, g: seq<Session>)
    requires (forall i :: i in keys ==> i in groups) && k !in keys
    ensures Total(keys, groups[k := g]) == Total(keys, groups)
  {
    if keys != [] {
      TotalElsewhere(keys[..|keys| - 1], groups, k, g);
    }
  }

  lemma {:induction false} TotalWithOneMore(keys: seq<string>, groups: map<string, seq<Session>>, k: string, s: Session)
    requires (forall i, j :: 0 <= i < j < |keys| ==> keys[i] != keys[j]) && (forall i :: i in keys ==> i in groups) && k in keys
    ensures Total(keys, groups[k := groups[k] + [s]]) == Total(keys, groups) + multiset{s}
  {
    var front, last := keys[..|keys| - 1], keys[|keys| - 1];
    if last == k {
      TotalElsewhere(front, groups, k, groups[k] + [s]);
    } else {
      TotalWithOneMore(front, groups, k, s);
    }
  }

  lemma NewcomerInitiates(all: seq<Session>, s: Session, initiator: string)
    requires InitiatorsLast(all + [s], initiator)
    ensures forall t :: t in all && Initiates(t, initiator) ==> Initiates(s, initiator)
  {
    forall t | t in all && Initiates(t, initiator) ensures Initiates(s, initiator) {
      var i :| 0 <= i < |all| && all[i] == t;
      assert (all + [s])[i] == t && (all + [s])[|all|] == s;
    }
  }

  lemma InitiatorsLastSnoc(g: seq<Session>, s: Session, initiator: string)
    requires InitiatorsLast(g, initiator) && forall t :: t in g && Initiates(t, initiator) ==> Initiates(s, initiator)
    ensures InitiatorsLast(g + [s], initiator)
  {
    forall i, j | 0 <= i < j < |g + [s]| && Initiates((g + [s])[i], initiator) ensures Initiates((g + [s])[j], initiator) {
      assert (g + [s])[i] == g[i] && g[i] in g;
    }
  }

  lemma {:induction false} JoinGroup(keys: seq<string>, groups: map<string, seq<Session>>, all: seq<Session>, s: Session, initiator: string)
    requires GroupsTrue(keys, groups, all, initiator) && Durable(s) && InitiatorsLast(all + [s], initiator)
    requires s.workspaceRef.value in groups
    ensures var ref := s.workspaceRef.value;
            && GroupsTrue(keys, groups[ref := groups[ref] + [s]], all + [s], initiator)
            && Total(keys, groups[ref := groups[ref] + [s]]) == Total(keys, groups) + multiset{s}
  {
    var ref := s.workspaceRef.value;
    NewcomerInitiates(all, s, initiator);
    InitiatorsLastSnoc(groups[ref], s, initiator);
    TotalWithOneMore(keys, groups, ref, s);
  }

  lemma {:induction false} NewGroup(keys: seq<string>, groups: map<string, seq<Session>>, all: seq<Session>, s: Session, initiator: string)
    requires GroupsTrue(keys, groups, all, initiator) && Durable(s) && s.workspaceRef.value !in groups
    ensures var ref := s.workspaceRef.value;
            && GroupsTrue(keys + [ref], groups[ref := [s]], all + [s], initiator)
            && Total(keys + [ref], groups[ref := [s]]) == Total(keys, groups) + multiset{s}
  {
    var ref := s.workspaceRef.value;
    TotalElsewhere(keys, groups, ref, [s]);
    assert (keys + [ref])[..|keys|] == keys;
  }

  lemma {:induction false} RefsOfTotal(all: seq<Session>, legacy: seq<Session>, keys: seq<string>, groups: map<string, seq<Session>>)
    requires forall k :: k in keys ==> k in groups
    requires multiset(legacy) + Total(keys, groups) == multiset(all)
    ensures Refs(legacy) + GroupRefs(keys, groups) == Refs(all)
  {
    forall r ensures r in GroupRefs(keys, groups) <==> exists s :: s in Total(keys, groups) && s.sessionRef == r {
      GroupRefsAre(keys, groups, r);
    }
    assert forall s :: s in all <==> s in multiset(all);
    assert forall s :: s in legacy <==> s in multiset(legacy);
  }

  lemma {:induction false} GroupRefsAre(keys: seq<string>, groups: map<string, seq<Session>>, r: string)
    requires forall k :: k in keys ==> k in groups
    ensures r in GroupRefs(keys, groups) <==> exists s :: s in Total(keys, groups) && s.sessionRef == r
  {
    if keys != [] {
      var last := groups[keys[|keys| - 1]];
      GroupRefsAre(keys[..|keys| - 1], groups, r);
      assert forall s :: s in last <==> s in multiset(last);
    }
  }

  // ----- the order within groups, over the whole teardown -----

  /** Calls so far: groups outside `keys` untouched, groups inside in order. */
  ghost predicate Settled(trace: seq<seq<Session>>, all: seq<Session>, keys: seq<string>, initiator: string) {
    && (forall i, s :: 0 <= i < |trace| && s in trace[i] && Durable(s) ==> s.workspaceRef.value in keys)
    && (forall k :: k in keys ==> Orderly(trace, all, k, initiator))
  }

  lemma SettleGroup(before: seq<seq<Session>>, calls: seq<seq<Session>>, all: seq<Session>, keys: seq<string>,
                    groups: map<string, seq<Session>>, j: nat, initiator: string)
    requires GroupsTrue(keys, groups, all, initiator) && j < |keys|
    requires Settled(before, all, keys[..j], initiator)
    requires Aims(calls, groups[keys[j]]) && Orderly(calls, groups[keys[j]], keys[j], initiator)
    ensures Settled(before + calls, all, keys[..j + 1], initiator)
  {
    var trace, key := before + calls, keys[j];
    assert keys[..j + 1] == keys[..j] + [key];
    assert forall i, s :: 0 <= i < |calls| && s in calls[i] ==> s in groups[key] && InGroup(s, key);
    forall i, s | 0 <= i < |trace| && s in trace[i] && Durable(s) ensures s.workspaceRef.value in keys[..j + 1] {
      if i < |before| {
        assert s in before[i];
      } else {
        assert s in calls[i - |before|];
      }
    }
    forall k | k in keys[..j + 1] ensures Orderly(trace, all, k, initiator) {
      if k == key {
        LaterOrderly(before, calls, all, groups[key], key, initiator);
      } else {
        EarlierOrderly(before, calls, all, k, initiator);
      }
    }
  }

  lemma LaterOrderly(before: seq<seq<Session>>, calls: seq<seq<Session>>, all: seq<Session>, group: seq<Session>, key: string, initiator: string)
    requires forall s :: s in all && InGroup(s, key) ==> s in group
    requires forall i, s :: 0 <= i < |before| && s in before[i] ==> !InGroup(s, key)
    requires Orderly(calls, group, key, initiator)
    ensures Orderly(before + calls, all, key, initiator)
  {
    var trace := before + calls;
    forall i, s, t | 0 <= i < |trace| && s in trace[i] && InGroup(s, key) && Initiates(s, initiator)
                     && t in all && InGroup(t, key) && !Initiates(t, initiator)
      ensures AttemptedBefore(trace, i, t)
    {
      assert i >= |before| && s in calls[i - |before|];
      assert AttemptedBefore(calls, i - |before|, t);
      var k :| 0 <= k < i - |before| && t in calls[k];
      assert t in trace[|before| + k];
    }
  }

  lemma EarlierOrderly(before: seq<seq<Session>>, calls: seq<seq<Session>>, all: seq<Session>, key: string, initiator: string)
    requires forall i, s :: 0 <= i < |calls| && s in calls[i] ==> !InGroup(s, key)
    requires Orderly(before, all, key, initiator)
    ensures Orderly(before + calls, all, key, initiator)
  {
    var trace := before + calls;
    forall i, s, t | 0 <= i < |trace| && s in trace[i] && InGroup(s, key) && Initiates(s, initiator)
                     && t in all && InGroup(t, key) && !Initiates(t, initiator)
      ensures AttemptedBefore(trace, i, t)
    {
      assert i < |before| && s in before[i];
      assert AttemptedBefore(before, i, t);
      var k :| 0 <= k < i && t in before[k];
      assert t in trace[k];
    }
  }

  lemma LegacyCallsSettle(legacy: seq<Session>, all: seq<Session>, initiator: string)
    requires forall s :: s in legacy ==> !Durable(s)
    ensures Settled(Singles(legacy), all, [], initiator)
  {
  }

  lemma SettledIsOrderly(trace: seq<seq<Session>>, ordered: seq<Session>, sessions: seq<Session>, keys: seq<string>, initiator: string)
    requires Settled(trace, ordered, keys, initiator) && forall s :: s in ordered <==> s in sessions
    ensures forall ref :: Orderly(trace, sessions, ref, initiator)
    ensures Refs(ordered) == Refs(sessions)
  {
    forall ref ensures Orderly(trace, sessions, ref, initiator) {
      if ref in keys {
        assert Orderly(trace, ordered, ref, initiator);
      }
    }
  }
}
