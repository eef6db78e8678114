/** The Oscar-Deb repair dialogue: its transition table and the driver that must stay inside it
    (packages/daemon/src/oscar-deb-repair.ts, packages/daemon/src/launcher.ts). */
module RepairDialogue {
  import opened Outcomes
  import opened Text
  import opened Paths
  import opened Repository
  import opened InterferenceRail

  datatype State =
    | Requested | WaitingForIdle | DebRunning | DebApplied | DebProposed | OscarEvaluating
    | NeedsOscar | OscarDirected | DebDirectedRunning | FounderEscalated | Complete | Failed

  datatype Event =
    | WaitForIdle | StartDeb | ReportApplied | ReportProposed | StartOscarEvaluation | AskOscar
    | Direct | StartDirectedDeb | EscalateFounder | Finish | Fail

  /** The state an event leads to; None where the transition is illegal and throws. */
  function NextDialogueState(current: State, event: Event): Option<State> {
    if event.Fail? && !current.Complete? && !current.Failed? then Some(Failed)
    else
      match (current, event)
      case (Requested, WaitForIdle) => Some(WaitingForIdle)
      case (Requested, StartDeb) => Some(DebRunning)
      case (WaitingForIdle, StartDeb) => Some(DebRunning)
      case (DebRunning, ReportApplied) => Some(DebApplied)
      case (DebRunning, ReportProposed) => Some(DebProposed)
      case (DebApplied, Finish) => Some(Complete)
      case (DebApplied, EscalateFounder) => Some(FounderEscalated)
      case (DebDirectedRunning, EscalateFounder) => Some(FounderEscalated)
      case (DebProposed, StartOscarEvaluation) => Some(OscarEvaluating)
      case (OscarEvaluating, AskOscar) => Some(NeedsOscar)
      case (NeedsOscar, StartOscarEvaluation) => Some(OscarEvaluating)
      case (OscarEvaluating, Direct) => Some(OscarDirected)
      case (OscarDirected, StartDirectedDeb) => Some(DebDirectedRunning)
      case (OscarDirected, EscalateFounder) => Some(FounderEscalated)
      case (DebDirectedRunning, Finish) => Some(Complete)
      case (FounderEscalated, Finish) => Some(Complete)
      case _ => None
  }

  ghost predicate Reaches(a: State, b: State) {
    exists e :: NextDialogueState(a, e) == Some(b)
  }

  ghost predicate LegalPath(path: seq<State>) {
    && path != [] && path[0] == Requested
    && forall i :: 0 < i < |path| ==> Reaches(path[i - 1], path[i])
  }

  /** Complete and Failed are where every legal path stops, and every other state can still fail. */
  lemma OnlyCompleteAndFailedAreFinal(s: State)
    ensures (forall e :: NextDialogueState(s, e).None?) <==> s.Complete? || s.Failed?
  {
    assert !s.Complete? && !s.Failed? ==> NextDialogueState(s, Fail) == Some(Failed);
  }

  /** Which state can follow which: every state that is not final can fail. */
  predicate MayPrecede(a: State, b: State) {
    match b
    case Requested => false
    case WaitingForIdle => a.Requested?
    case DebRunning => a.Requested? || a.WaitingForIdle?
    case DebApplied => a.DebRunning?
    case DebProposed => a.DebRunning?
    case OscarEvaluating => a.DebProposed? || a.NeedsOscar?
    case NeedsOscar => a.OscarEvaluating?
    case OscarDirected => a.OscarEvaluating?
    case DebDirectedRunning => a.OscarDirected?
    case FounderEscalated => a.DebApplied? || a.DebDirectedRunning? || a.OscarDirected?
    case Complete => a.DebApplied? || a.DebDirectedRunning? || a.FounderEscalated?
    case Failed => !a.Complete? && !a.Failed?
  }

  /** The one event that enters a state. */
  function Entering(s: State): Option<Event> {
    match s
    case Requested => None
    case WaitingForIdle => Some(WaitForIdle)
    case DebRunning => Some(StartDeb)
    case DebApplied => Some(ReportApplied)
    case DebProposed => Some(ReportProposed)
    case OscarEvaluating => Some(StartOscarEvaluation)
    case NeedsOscar => Some(AskOscar)
    case OscarDirected => Some(Direct)
    case DebDirectedRunning => Some(StartDirectedDeb)
    case FounderEscalated => Some(EscalateFounder)
    case Complete => Some(Finish)
    case Failed => Some(Fail)
  }

  lemma EntersAsTold(a: State, e: Event)
    requires NextDialogueState(a, e).Some?
    ensures var b := NextDialogueState(a, e).value; Entering(b) == Some(e) && MayPrecede(a, b)
  {
  }

  lemma ToldAsEnters(a: State, b: State)
    requires MayPrecede(a, b)
    ensures Entering(b).Some? && NextDialogueState(a, Entering(b).value) == Some(b)
  {
  }

  /** The table is the relation: an event leads from one state to another exactly when it is the one that
      enters the second and the first may precede it. */
  lemma TransitionIff(a: State, e: Event, b: State)
    ensures NextDialogueState(a, e) == Some(b) <==> Entering(b) == Some(e) && MayPrecede(a, b)
    ensures Reaches(a, b) <==> MayPrecede(a, b)
  {
    hide NextDialogueState, Entering, MayPrecede;
    if NextDialogueState(a, e) == Some(b) {
      EntersAsTold(a, e);
    }
    if MayPrecede(a, b) {
      ToldAsEnters(a, b);
    }
    if f :| NextDialogueState(a, f) == Some(b) {
      EntersAsTold(a, f);
    }
  }

  function Rank(s: State): nat {
    match s
    case Requested => 0
    case WaitingForIdle => 1
    case DebRunning => 2
    case DebApplied => 3
    case DebProposed => 3
    case OscarEvaluating => 4
    case NeedsOscar => 4
    case OscarDirected => 5
    case DebDirectedRunning => 6
    case FounderEscalated => 7
    case Complete => 8
    case Failed => 9
  }

  /** A legal path only moves on; it can go round only between evaluation and needs-oscar. */
  lemma {:induction false} LegalPathsAdvance(path: seq<State>, i: nat, j: nat)
    requires LegalPath(path) && i <= j < |path|
    ensures Rank(path[i]) <= Rank(path[j])
    ensures path[i] == path[j] && i < j ==> path[i].OscarEvaluating? || path[i].NeedsOscar?
    decreases j - i
  {
    if i < j {
      assert Reaches(path[j - 1], path[j]);
      LegalPathsAdvance(path, i, j - 1);
      assert Rank(path[j - 1]) == Rank(path[j]) ==> path[j].OscarEvaluating? || path[j].NeedsOscar?;
    }
  }

  // ----- what the outside world answers -----

  datatype Turn<+T> = TurnFailed | MalformedArtifact | Answer(value: T)

  datatype DebAnswer = Applied | Proposal(needsFounder: bool, highRisk: bool)

  datatype Verdict = AcceptApplied | DirectDebToApply | Revise | EscalateToFounder

  /** What a Deb turn left in the checkout, git's list of changed paths, and whether git will commit. */
  datatype Edit = Edit(index: Tree, work: Tree, changed: seq<string>, verdict: GitVerdict)

  /** Everything the driver learns from outside. `activeDeb` is a live Deb surface and whether the
      request reached it. */
  datatype World = World(
    activeDeb: Option<bool>,
    deb: Turn<DebAnswer>, debEdit: Edit,
    oscarResolved: bool, oscar: Turn<Verdict>,
    directed: Turn<DebAnswer>, directedEdit: Edit)

  datatype Outcome =
    | ActiveDebDispatched | DialogueFailed | OscarNeeded | OscarUnresolved
    | AppliedDirectly | HeldForFounder(directed: bool) | Evaluated(verdict: Verdict) | Escalated | DirectedApplied
    | Thrown

  function FinalState(o: Outcome): Option<State> {
    match o
    case ActiveDebDispatched => Some(DebRunning)
    case DialogueFailed => Some(Failed)
    case OscarNeeded => Some(NeedsOscar)
    case OscarUnresolved => Some(DebProposed)
    case AppliedDirectly => Some(Complete)
    case HeldForFounder(_) => Some(Complete)
    case Evaluated(_) => Some(OscarDirected)
    case Escalated => Some(Complete)
    case DirectedApplied => Some(Complete)
    case Thrown => None
  }

  // ----- the decision the driver must reach -----

  datatype LandingKind = LandFails | Lands | Holds | HoldBreaks

  /** What landing an edit comes to: the held change's artifact throws when a held path is all blanks. */
  function LandingOf(head: Tree, quarantine: Tree, e: Edit): LandingKind {
    if Interferes(e.changed) then
      if !RestoreAll(Checkout(head, e.index, e.work, quarantine), e.changed).1 then LandFails
      else if exists i :: 0 <= i < |e.changed| && AllBlank(e.changed[i]) then HoldBreaks
      else Holds
    else if e.changed == [] || (e.verdict.stages && e.verdict.commits) then Lands
    else LandFails
  }

  function Landed(k: LandingKind, directed: bool): Outcome {
    match k
    case LandFails => DialogueFailed
    case Lands => if directed then DirectedApplied else AppliedDirectly
    case Holds => HeldForFounder(directed)
    case HoldBreaks => Thrown
  }

  function Decision(head: Tree, quarantine: Tree, w: World): Outcome {
    if w.activeDeb.Some? then (if w.activeDeb.value then ActiveDebDispatched else DialogueFailed)
    else if !w.deb.Answer? then DialogueFailed
    else if w.deb.value.Applied? then Landed(LandingOf(head, quarantine, w.debEdit), false)
    else if !w.oscarResolved then OscarUnresolved
    else if w.oscar.TurnFailed? then OscarNeeded
    else if w.oscar.MalformedArtifact? then DialogueFailed
    else if w.oscar.value.EscalateToFounder? || w.deb.value.needsFounder || w.deb.value.highRisk then Escalated
    else if !w.oscar.value.DirectDebToApply? then Evaluated(w.oscar.value)
    else if !w.directed.Answer? || !w.directed.value.Applied? then DialogueFailed
    else Landed(LandingOf(head, quarantine, w.directedEdit), true)
  }

  /** Which outcome, outcome by outcome, in terms of what the world answers. An edit lands when all its paths
      are instruction surfaces and git takes them; it is held when one is not and the restore goes through. */
  lemma OutcomesAre(head: Tree, quarantine: Tree, w: World)
    ensures var o := Decision(head, quarantine, w);
            && (o.ActiveDebDispatched? <==> w.activeDeb == Some(true))
            && (o.OscarUnresolved? <==>
                  w.activeDeb.None? && w.deb.Answer? && w.deb.value.Proposal? && !w.oscarResolved)
            && (o.OscarNeeded? <==>
                  w.activeDeb.None? && w.deb.Answer? && w.deb.value.Proposal? && w.oscarResolved && w.oscar.TurnFailed?)
            && (o.Escalated? <==>
                  && w.activeDeb.None? && w.deb.Answer? && w.deb.value.Proposal? && w.oscarResolved && w.oscar.Answer?
                  && (w.oscar.value.EscalateToFounder? || w.deb.value.needsFounder || w.deb.value.highRisk))
            && (o.Evaluated? <==>
                  && w.activeDeb.None? && w.deb.Answer? && w.deb.value.Proposal? && w.oscarResolved && w.oscar.Answer?
                  && !w.deb.value.needsFounder && !w.deb.value.highRisk
                  && (w.oscar.value.AcceptApplied? || w.oscar.value.Revise?))
            && (o.Evaluated? ==> o.verdict == w.oscar.value)
    ensures var o, c := Decision(head, quarantine, w), w.debEdit.changed;
            var applies := w.activeDeb.None? && w.deb == Answer(Applied);
            var held := RestoreAll(Checkout(head, w.debEdit.index, w.debEdit.work, quarantine), c).1;
            && (o.AppliedDirectly? <==>
                  && applies && (forall i :: 0 <= i < |c| ==> IsInstructionSurface(c[i]))
                  && (c == [] || (w.debEdit.verdict.stages && w.debEdit.verdict.commits)))
            && (o == HeldForFounder(false) <==>
                  && applies && !(forall i :: 0 <= i < |c| ==> IsInstructionSurface(c[i]))
                  && held && !(exists i :: 0 <= i < |c| && AllBlank(c[i])))
            && (applies ==> (o.Thrown? <==>
                  && !(forall i :: 0 <= i < |c| ==> IsInstructionSurface(c[i]))
                  && held && exists i :: 0 <= i < |c| && AllBlank(c[i])))
    ensures var o, c := Decision(head, quarantine, w), w.directedEdit.changed;
            var applies := && w.activeDeb.None? && w.deb.Answer? && w.deb.value.Proposal? && w.oscarResolved
                           && !w.deb.value.needsFounder && !w.deb.value.highRisk
                           && w.oscar == Answer(DirectDebToApply) && w.directed == Answer(Applied);
            var held := RestoreAll(Checkout(head, w.directedEdit.index, w.directedEdit.work, quarantine), c).1;
            && (o.DirectedApplied? <==>
                  && applies && (forall i :: 0 <= i < |c| ==> IsInstructionSurface(c[i]))
                  && (c == [] || (w.directedEdit.verdict.stages && w.directedEdit.verdict.commits)))
            && (o == HeldForFounder(true) <==>
                  && applies && !(forall i :: 0 <= i < |c| ==> IsInstructionSurface(c[i]))
                  && held && !(exists i :: 0 <= i < |c| && AllBlank(c[i])))
            && (applies ==> (o.Thrown? <==>
                  && !(forall i :: 0 <= i < |c| ==> IsInstructionSurface(c[i]))
                  && held && exists i :: 0 <= i < |c| && AllBlank(c[i])))
            && (o.Thrown? ==> applies || (w.activeDeb.None? && w.deb == Answer(Applied)))
  {
    hide RestoreAll, NoneAbove, IsInstructionSurface, AllBlank;
  }

  // ----- the driver -----

  /** A step of the driver's state variable: the states it has held, extended by an event's target. */
  function After(path: seq<State>, event: Event): seq<State>
    requires path != [] && NextDialogueState(path[|path| - 1], event).Some?
  {
    path + [NextDialogueState(path[|path| - 1], event).value]
  }

  lemma PathGrows(path: seq<State>, event: Event)
    requires LegalPath(path) && NextDialogueState(path[|path| - 1], event).Some?
    ensures LegalPath(After(path, event))
  {
    var next := After(path, event);
    assert Reaches(path[|path| - 1], next[|path|]);
    forall i | 0 < i < |next| ensures Reaches(next[i - 1], next[i]) {
      if i < |path| {
        assert next[i - 1] == path[i - 1] && next[i] == path[i];
      }
    }
  }

  /** At most one commit was added, by a landing outcome, and it holds only instruction surfaces. */
  predicate LandedOn(w: World, outcome: Outcome, before: seq<Commit>, after: seq<Commit>) {
    || after == before
    || (&& (outcome.AppliedDirectly? || outcome.DirectedApplied?)
        && |after| == |before| + 1 && before <= after
        && after[|before|].files == (if outcome.AppliedDirectly? then w.debEdit.changed else w.directedEdit.changed)
        && !Interferes(after[|before|].files))
  }

  /** How a dialogue ends: its variable followed the table into the outcome's state, and so did the
      log, except that a hold of an undirected fix never logs deb-applied. */
  ghost predicate Ended(outcome: Outcome, path: seq<State>, evidence: seq<State>) {
    && LegalPath(path)
    && (FinalState(outcome).Some? ==>
          && path[|path| - 1] == FinalState(outcome).value
          && evidence != [] && evidence[|evidence| - 1] == path[|path| - 1])
    && (LegalPath(evidence) <==> outcome != HeldForFounder(false))
  }

  /** The checkout of a held edit: what restoring its paths makes of it. */
  predicate HeldAs(e: Edit, before: Checkout, after: Checkout) {
    after == RestoreAll(Checkout(before.head, e.index, e.work, before.quarantine), e.changed).0
  }

  /** Outcomes with nothing landed and nothing held: an escalated proposal among them. */
  predicate LeavesRepository(o: Outcome) {
    o.ActiveDebDispatched? || o.OscarNeeded? || o.OscarUnresolved? || o.Evaluated? || o.Escalated?
  }

  /** Runs one dialogue. `path` is every state the driver's variable held, `evidence` every state it
      wrote to the evidence log. */
  method RequestOscarDebRepair(repo: Repo, w: World)
    returns (outcome: Outcome, path: seq<State>, evidence: seq<State>)
    requires repo.Valid()
    modifies repo
    ensures repo.Valid()
    ensures outcome == Decision(old(repo.Head()), old(repo.quarantine), w)
    ensures Ended(outcome, path, evidence)
    ensures LandedOn(w, outcome, old(repo.history), repo.history)
    ensures outcome.HeldForFounder? ==>
              HeldAs(if outcome.directed then w.directedEdit else w.debEdit, old(repo.View()), repo.View())
    ensures w.activeDeb.None? && w.deb.Answer? && w.deb.value.Proposal? && w.oscarResolved && w.oscar.Answer? ==>
              (outcome.Escalated? <==>
                w.oscar.value.EscalateToFounder? || w.deb.value.needsFounder || w.deb.value.highRisk)
    ensures outcome.DirectedApplied? || outcome == HeldForFounder(true) ==>
              && w.deb.Answer? && w.deb.value.Proposal? && !w.deb.value.needsFounder && !w.deb.value.highRisk
              && w.oscar == Answer(DirectDebToApply)
    ensures LeavesRepository(outcome) ==> repo.history == old(repo.history) && repo.View() == old(repo.View())
  {
    OutcomesAre(repo.Head(), repo.quarantine, w);
    hide LandingOf, RestoreAll, Interferes, NoneAbove;
    path := [Requested];
    evidence := [Requested];

    path := Advance(path, StartDeb);
    evidence := Note(path, evidence, StartDeb);
    if w.activeDeb.Some? {
      if !w.activeDeb.value {
        outcome, path, evidence := FailDialogue(path, evidence);
        return;
      }
      return ActiveDebDispatched, path, evidence;
    }
    if !w.deb.Answer? {
      outcome, path, evidence := FailDialogue(path, evidence);
      return;
    }
    if w.deb.value.Applied? {
      outcome, path, evidence := AppliedTurn(repo, w, path, evidence);
      return;
    }
    path := Advance(path, ReportProposed);
    evidence := Note(path, evidence, ReportProposed);
    if !w.oscarResolved {
      return OscarUnresolved, path, evidence;
    }
    outcome, path, evidence := EvaluationTurn(repo, w, path, evidence);
  }

  /** Deb reports an applied fix: it lands, is held, or fails. */
  method AppliedTurn(repo: Repo, w: World, start: seq<State>, log: seq<State>)
    returns (outcome: Outcome, path: seq<State>, evidence: seq<State>)
    requires repo.Valid() && start == log == [Requested, DebRunning] && LegalPath(start)
    modifies repo
    ensures repo.Valid()
    ensures outcome == Landed(LandingOf(old(repo.Head()), old(repo.quarantine), w.debEdit), false)
    ensures Ended(outcome, path, evidence)
    ensures LandedOn(w, outcome, old(repo.history), repo.history)
    ensures outcome.HeldForFounder? ==> HeldAs(w.debEdit, old(repo.View()), repo.View())
  {
    hide LegalPath, LandingOf, RestoreAll, Interferes, NoneAbove;
    path := Advance(start, ReportApplied);
    evidence := log;
    var kind := Land(repo, w.debEdit);
    match kind {
      case LandFails =>
        outcome, path, evidence := FailDialogue(path, evidence);
      case HoldBreaks =>
        outcome := Thrown;
      case Holds =>
        path, evidence := HoldInterferingForFounder(path, evidence);
        SkippedStateIsIllegal(evidence);
        outcome := HeldForFounder(false);
      case Lands =>
        evidence := Note(path, evidence, ReportApplied);
        path := Advance(path, Finish);
        evidence := Note(path, evidence, Finish);
        outcome := AppliedDirectly;
    }
  }

  /** Oscar evaluates a proposal and may escalate it, leave it, or direct Deb to apply it. */
  method EvaluationTurn(repo: Repo, w: World, start: seq<State>, log: seq<State>)
    returns (outcome: Outcome, path: seq<State>, evidence: seq<State>)
    requires repo.Valid() && LegalPath(start) && LegalPath(log)
    requires start[|start| - 1] == log[|log| - 1] == DebProposed
    requires w.activeDeb.None? && w.oscarResolved && w.deb.Answer? && w.deb.value.Proposal?
    modifies repo
    ensures repo.Valid()
    ensures outcome == Decision(old(repo.Head()), old(repo.quarantine), w)
    ensures Ended(outcome, path, evidence)
    ensures LandedOn(w, outcome, old(repo.history), repo.history)
    ensures outcome.HeldForFounder? ==> outcome.directed && HeldAs(w.directedEdit, old(repo.View()), repo.View())
    ensures outcome.Escalated? <==>
              && w.oscar.Answer?
              && (w.oscar.value.EscalateToFounder? || w.deb.value.needsFounder || w.deb.value.highRisk)
    ensures LeavesRepository(outcome) ==> repo.history == old(repo.history) && repo.View() == old(repo.View())
  {
    hide LegalPath, LandingOf, RestoreAll, Interferes, NoneAbove;
    path := Advance(start, StartOscarEvaluation);
    evidence := Note(path, log, StartOscarEvaluation);
    if w.oscar.TurnFailed? {
      path := Advance(path, AskOscar);
      evidence := Note(path, evidence, AskOscar);
      return OscarNeeded, path, evidence;
    }
    if w.oscar.MalformedArtifact? {
      outcome, path, evidence := FailDialogue(path, evidence);
      return;
    }
    path := Advance(path, Direct);
    evidence := Note(path, evidence, Direct);
    if w.oscar.value.EscalateToFounder? || w.deb.value.needsFounder || w.deb.value.highRisk {
      path, evidence := HoldInterferingForFounder(path, evidence);
      return Escalated, path, evidence;
    }
    if !w.oscar.value.DirectDebToApply? {
      return Evaluated(w.oscar.value), path, evidence;
    }
    outcome, path, evidence := DirectedTurn(repo, w, path, evidence);
  }

  /** Deb's directed turn must come back applied; the rail binds it all the same. */
  method DirectedTurn(repo: Repo, w: World, start: seq<State>, log: seq<State>)
    returns (outcome: Outcome, path: seq<State>, evidence: seq<State>)
    requires repo.Valid() && LegalPath(start) && LegalPath(log)
    requires start[|start| - 1] == log[|log| - 1] == OscarDirected
    modifies repo
    ensures repo.Valid()
    ensures outcome == if !w.directed.Answer? || !w.directed.value.Applied? then DialogueFailed
                       else Landed(LandingOf(old(repo.Head()), old(repo.quarantine), w.directedEdit), true)
    ensures Ended(outcome, path, evidence)
    ensures LandedOn(w, outcome, old(repo.history), repo.history)
    ensures outcome.HeldForFounder? ==> outcome.directed && HeldAs(w.directedEdit, old(repo.View()), repo.View())
  {
    hide LegalPath, LandingOf, RestoreAll, Interferes, NoneAbove;
    path := Advance(start, StartDirectedDeb);
    evidence := Note(path, log, StartDirectedDeb);
    if !w.directed.Answer? || !w.directed.value.Applied? {
      outcome, path, evidence := FailDialogue(path, evidence);
      return;
    }
    var kind := Land(repo, w.directedEdit);
    match kind {
      case LandFails =>
        outcome, path, evidence := FailDialogue(path, evidence);
      case HoldBreaks =>
        outcome := Thrown;
      case Holds =>
        path, evidence := HoldInterferingForFounder(path, evidence);
        outcome := HeldForFounder(true);
      case Lands =>
        path := Advance(path, Finish);
        evidence := Note(path, evidence, Finish);
        outcome := DirectedApplied;
    }
  }

  method FailDialogue(path: seq<State>, evidence: seq<State>)
    returns (outcome: Outcome, p: seq<State>, e: seq<State>)
    requires LegalPath(path) && LegalPath(evidence)
    requires !path[|path| - 1].Complete? && !path[|path| - 1].Failed?
    requires !evidence[|evidence| - 1].Complete? && !evidence[|evidence| - 1].Failed?
    ensures outcome == DialogueFailed && Ended(outcome, p, e)
  {
    p := Advance(path, Fail);
    e := Note(p, evidence, Fail);
    outcome := DialogueFailed;
  }

  method Advance(path: seq<State>, event: Event) returns (next: seq<State>)
    requires LegalPath(path) && NextDialogueState(path[|path| - 1], event).Some?
    ensures next == After(path, event) && LegalPath(next)
  {
    PathGrows(path, event);
    next := After(path, event);
  }

  /** Writes the current state to the evidence log; `event` is how it follows the last state written. */
  method Note(path: seq<State>, evidence: seq<State>, ghost event: Event) returns (log: seq<State>)
    requires LegalPath(path) && LegalPath(evidence)
    requires NextDialogueState(evidence[|evidence| - 1], event) == Some(path[|path| - 1])
    ensures log == evidence + [path[|path| - 1]] && LegalPath(log)
  {
    PathGrows(evidence, event);
    log := evidence + [path[|path| - 1]];
  }

  /** The escalation both held changes and founder verdicts end with. */
  method HoldInterferingForFounder(path: seq<State>, evidence: seq<State>)
    returns (p: seq<State>, e: seq<State>)
    requires LegalPath(path) && path[|path| - 1] in {DebApplied, DebDirectedRunning, OscarDirected}
    requires LegalPath(evidence)
    ensures LegalPath(p) && p == path + [FounderEscalated, Complete]
    ensures e == evidence + [FounderEscalated, Complete]
    ensures evidence[|evidence| - 1] == path[|path| - 1] ==> LegalPath(e)
  {
    p := Advance(path, EscalateFounder);
    e := evidence + [p[|p| - 1]];
    if evidence[|evidence| - 1] == path[|path| - 1] {
      PathGrows(evidence, EscalateFounder);
      PathGrows(e, Finish);
    }
    p := Advance(p, Finish);
    e := e + [p[|p| - 1]];
  }

  /** A Deb turn's edit appears in the checkout and is landed or held. */
  method Land(repo: Repo, e: Edit) returns (kind: LandingKind)
    requires repo.Valid()
    modifies repo
    ensures repo.Valid()
    ensures kind == LandingOf(old(repo.Head()), old(repo.quarantine), e)
    ensures !kind.Lands? || e.changed == [] ==> repo.history == old(repo.history)
    ensures kind.Lands? && e.changed != [] ==>
              && |repo.history| == |old(repo.history)| + 1 && old(repo.history) <= repo.history
              && repo.history[|old(repo.history)|].files == e.changed && !Interferes(e.changed)
    ensures kind.Holds? ==>
              repo.View() == RestoreAll(Checkout(old(repo.Head()), e.index, e.work, old(repo.quarantine)), e.changed).0
  {
    hide RestoreAll, NoneAbove, TreeWith;
    repo.index, repo.work := e.index, e.work;
    var landing := CommitDebRepair(repo, e.changed, e.verdict);
    if landing.Err? {
      return LandFails;
    }
    // The response artifact is validated again with the landing's paths: a blank path is refused.
    var paths := landing.value.committedPaths + landing.value.outOfLanePaths;
    if exists i :: 0 <= i < |paths| && AllBlank(paths[i]) {
      ghost var i :| 0 <= i < |paths| && AllBlank(paths[i]);
      if IsInstructionSurface(paths[i]) { SurfaceNotBlank(paths[i]); assert false; }
      assert paths[i] in e.changed;
      return HoldBreaks;
    }
    if landing.value.interfering {
      forall i | 0 <= i < |e.changed| ensures !AllBlank(e.changed[i]) {
        assert e.changed[i] in paths || IsInstructionSurface(e.changed[i]);
        assert e.changed[i] in paths ==> exists k :: 0 <= k < |paths| && paths[k] == e.changed[i];
        if IsInstructionSurface(e.changed[i]) {
          SurfaceNotBlank(e.changed[i]);
        }
      }
      return Holds;
    }
    kind := Lands;
  }

  /** The log of an undirected hold jumps from deb-running to founder-escalated, which no event does. */
  lemma SkippedStateIsIllegal(evidence: seq<State>)
    requires evidence == [Requested, DebRunning, FounderEscalated, Complete]
    ensures !LegalPath(evidence)
  {
    assert !Reaches(evidence[1], evidence[2]);
  }

  /** A new file named by one blank: its edit is held, and the response artifact throws out of the driver
      with the file in quarantine. */
  lemma BlankPathThrows()
    ensures var blank: Tree := map[" " := "x"];
            var e := Edit(map[], blank, [" "], GitVerdict(true, true));
            && RestoreAll(Checkout(map[], map[], blank, map[]), [" "]) == (Checkout(map[], map[], map[], blank), true)
            && Decision(map[], map[], World(None, Answer(Applied), e, true, TurnFailed, TurnFailed, e)) == Thrown
  {
    var blank: Tree := map[" " := "x"];
    var c := Checkout(map[], map[], blank, map[]);
    var e := Edit(map[], blank, [" "], GitVerdict(true, true));
    assert At(" ", " ") && Select(blank, " ") == blank && Clear(blank, " ") == map[];
    assert Moved(map[], blank, " ") == blank;
    assert RestoreOne(c, " ") == Some(Checkout(map[], map[], map[], blank));
    assert [" "][1..] == [];
    assert AllBlank(e.changed[0]) by {
      assert Trim(" ") == "";
    }
    if IsInstructionSurface(e.changed[0]) {
      SurfaceNotBlank(e.changed[0]);
      assert false;
    }
    assert LandingOf(map[], map[], e) == HoldBreaks;
  }
}
