/** Which finished run still owns a ticket's close, and the founder's confirmation that releases it
    (packages/daemon/src/ticket-close-gate.ts, packages/daemon/src/launcher.ts). */
module CloseGate {
  import opened Outcomes
  import opened RunSlots

  datatype Run = Run(
    id: string, workspaceId: string, ticketId: Option<string>, status: RunStatus, createdAt: int, endedAt: Option<int>)

  /** The number in a run id's suffix; how JavaScript reads it is left open. */
  type Sequence = string -> real

  // ----- the newest run -----

  predicate Newer(a: Run, b: Run, seqOf: Sequence) {
    if a.createdAt != b.createdAt then a.createdAt > b.createdAt else seqOf(a.id) > seqOf(b.id)
  }

  function LatestRun(runs: seq<Run>, seqOf: Sequence): Option<Run> {
    if runs == [] then None
    else
      var newest, run := LatestRun(runs[..|runs| - 1], seqOf), runs[|runs| - 1];
      if newest.None? || Newer(run, newest.value, seqOf) then Some(run) else newest
  }

  /** No listed run is newer, and none listed earlier is as new. */
  ghost predicate IsNewest(runs: seq<Run>, i: nat, seqOf: Sequence) {
    && i < |runs|
    && (forall j :: 0 <= j < |runs| ==> !Newer(runs[j], runs[i], seqOf))
    && (forall j :: 0 <= j < i ==> Newer(runs[i], runs[j], seqOf))
  }

  /** No listed run was created after the newest, none created with it has a higher number, and of those
      alike in both it is the first listed. */
  lemma {:induction false} LatestIsNewest(runs: seq<Run>, seqOf: Sequence) returns (i: nat)
    requires runs != []
    ensures IsNewest(runs, i, seqOf) && LatestRun(runs, seqOf) == Some(runs[i])
    ensures forall j :: 0 <= j < |runs| ==>
              && runs[j].createdAt <= runs[i].createdAt
              && (runs[j].createdAt == runs[i].createdAt ==> seqOf(runs[j].id) <= seqOf(runs[i].id))
    ensures forall j :: 0 <= j < i ==>
              runs[j].createdAt < runs[i].createdAt || seqOf(runs[j].id) < seqOf(runs[i].id)
  {
    var n := |runs| - 1;
    i := n;
    if n > 0 {
      var k := LatestIsNewest(runs[..n], seqOf);
      if !Newer(runs[n], runs[k], seqOf) {
        i := k;
      }
    }
  }

  /** The newest run is the only one there is. */
  lemma {:induction false} NewestIsLatest(runs: seq<Run>, i: nat, seqOf: Sequence)
    requires IsNewest(runs, i, seqOf)
    ensures LatestRun(runs, seqOf) == Some(runs[i])
  {
    var k := LatestIsNewest(runs, seqOf);
  }

  function OfWorkspace(runs: seq<Run>, ws: string): (r: seq<Run>)
    ensures forall x :: x in r <==> x in runs && x.workspaceId == ws
  {
    if runs == [] then []
    else
      assert forall x :: x in runs <==> x in runs[..|runs| - 1] || x == runs[|runs| - 1];
      OfWorkspace(runs[..|runs| - 1], ws) + if runs[|runs| - 1].workspaceId == ws then [runs[|runs| - 1]] else []
  }

  function OfTicket(runs: seq<Run>, ticket: string): (r: seq<Run>)
    ensures forall x :: x in r <==> x in runs && x.ticketId == Some(ticket)
  {
    if runs == [] then []
    else
      assert forall x :: x in runs <==> x in runs[..|runs| - 1] || x == runs[|runs| - 1];
      OfTicket(runs[..|runs| - 1], ticket) + if runs[|runs| - 1].ticketId == Some(ticket) then [runs[|runs| - 1]] else []
  }

  /** A maximum survives filtering, ties included. */
  lemma {:induction false} FilterKeepsLatest(runs: seq<Run>, ticket: string, seqOf: Sequence)
    requires LatestRun(runs, seqOf).Some? && LatestRun(runs, seqOf).value.ticketId == Some(ticket)
    ensures LatestRun(OfTicket(runs, ticket), seqOf) == LatestRun(runs, seqOf)
  {
    var front, last := runs[..|runs| - 1], runs[|runs| - 1];
    var kept := OfTicket(front, ticket);
    LatestSnoc(kept, last, seqOf);
    if front == [] || Newer(last, LatestRun(front, seqOf).value, seqOf) {
      if kept != [] {
        KeptIsNotNewer(front, kept, seqOf);
      }
    } else {
      FilterKeepsLatest(front, ticket, seqOf);
      assert kept + [] == kept;
    }
  }

  lemma LatestSnoc(runs: seq<Run>, run: Run, seqOf: Sequence)
    ensures var newest := LatestRun(runs, seqOf);
            LatestRun(runs + [run], seqOf) == if newest.None? || Newer(run, newest.value, seqOf) then Some(run) else newest
  {
    assert (runs + [run])[..|runs|] == runs;
  }

  lemma KeptIsNotNewer(runs: seq<Run>, kept: seq<Run>, seqOf: Sequence)
    requires kept != [] && forall r :: r in kept ==> r in runs
    ensures LatestRun(kept, seqOf).Some? && LatestRun(runs, seqOf).Some?
    ensures !Newer(LatestRun(kept, seqOf).value, LatestRun(runs, seqOf).value, seqOf)
  {
    assert kept[0] in runs;
    var m := LatestIsNewest(kept, seqOf);
    var k := LatestIsNewest(runs, seqOf);
    assert kept[m] in runs;
  }

  // ----- the two guards -----

  datatype Decision = CloseIt | AskFounder | NoClose

  /** A store event; `decision` is the `ticketCloseDecision` text of its data, if it has one. */
  datatype Event = Event(kind: string, decision: Option<string>)

  function DecisionOf(text: Option<string>): Option<Decision> {
    if text == Some("close") then Some(CloseIt)
    else if text == Some("ask") then Some(AskFounder)
    else if text == Some("none") then Some(NoClose)
    else None
  }

  /** The last wrap disposition decides; an unknown text there decides nothing. */
  function TicketCloseDecisionFromEvents(events: seq<Event>): Option<Decision> {
    if events == [] then None
    else if events[|events| - 1].kind == "wrap-disposition" then DecisionOf(events[|events| - 1].decision)
    else TicketCloseDecisionFromEvents(events[..|events| - 1])
  }

  datatype Mode = Unattended | FounderConfirmation(confirmedRunId: string)

  datatype Reason = AwaitingFounderDecision | NotAwaitingTicketCloseConfirmation

  datatype Block = Block(runId: string, reason: Reason)

  predicate AwaitsFounder(status: RunStatus) {
    status.Held? || status.AwaitingFounder? || status.AwaitingArchive?
  }

  function EventsOf(events: map<string, seq<Event>>, runId: string): seq<Event> {
    if runId in events then events[runId] else []
  }

  function LatestRunForTicket(runs: seq<Run>, ws: string, ticket: string, seqOf: Sequence): Option<Run> {
    LatestRun(OfTicket(OfWorkspace(runs, ws), ticket), seqOf)
  }

  function TicketCloseGate(runs: seq<Run>, events: map<string, seq<Event>>, ws: string, ticket: string, mode: Mode,
                           seqOf: Sequence): Option<Block> {
    var latest := LatestRunForTicket(runs, ws, ticket, seqOf);
    if latest.None? || !AwaitsFounder(latest.value.status) then None
    else if mode == FounderConfirmation(latest.value.id) then
      if TicketCloseDecisionFromEvents(EventsOf(events, latest.value.id)) == Some(AskFounder) then None
      else Some(Block(latest.value.id, NotAwaitingTicketCloseConfirmation))
    else Some(Block(latest.value.id, AwaitingFounderDecision))
  }

  /** Unattended, the gate blocks on the ticket's newest run exactly while that run is held or awaits the
      founder or its archive; the founder's confirmation passes exactly on that run, once it asked. */
  lemma GateBlocksIff(runs: seq<Run>, events: map<string, seq<Event>>, ws: string, ticket: string, mode: Mode, seqOf: Sequence)
    ensures var latest := LatestRun(OfTicket(OfWorkspace(runs, ws), ticket), seqOf);
            var waits := latest.Some? && latest.value.status in {Held, AwaitingFounder, AwaitingArchive};
            var block := TicketCloseGate(runs, events, ws, ticket, mode, seqOf);
            && (block.Some? ==> waits && block.value.runId == latest.value.id)
            && (mode.Unattended? ==> (block.Some? <==> waits))
            && (mode.FounderConfirmation? && waits && latest.value.id != mode.confirmedRunId ==>
                  block == Some(Block(latest.value.id, AwaitingFounderDecision)))
            && (mode.FounderConfirmation? && waits && latest.value.id == mode.confirmedRunId ==>
                  var log := if latest.value.id in events then events[latest.value.id] else [];
                  block.None? <==> TicketCloseDecisionFromEvents(log) == Some(AskFounder))
  {
    hide LatestRun, OfTicket, OfWorkspace, TicketCloseDecisionFromEvents;
  }

  /** The decision is the text of the last wrap disposition, where that is one of three. */
  lemma {:induction false} LastDispositionDecides(before: seq<Event>, text: Option<string>, after: seq<Event>)
    requires forall i :: 0 <= i < |after| ==> after[i].kind != "wrap-disposition"
    ensures var decision := TicketCloseDecisionFromEvents(before + [Event("wrap-disposition", text)] + after);
            && (decision == Some(CloseIt) <==> text == Some("close"))
            && (decision == Some(AskFounder) <==> text == Some("ask"))
            && (decision == Some(NoClose) <==> text == Some("none"))
    ensures TicketCloseDecisionFromEvents(after) == None
  {
    var events := before + [Event("wrap-disposition", text)] + after;
    if after == [] {
      assert events[|events| - 1] == Event("wrap-disposition", text);
    } else {
      var front := after[..|after| - 1];
      LastDispositionDecides(before, text, front);
      assert events[..|events| - 1] == before + [Event("wrap-disposition", text)] + front;
    }
  }

  function TicketPendingCloseRun(runs: seq<Run>, ws: string, ticket: string, seqOf: Sequence): Option<string> {
    var tip := LatestRun(OfWorkspace(runs, ws), seqOf);
    if tip.None? || tip.value.ticketId != Some(ticket) || !tip.value.status.AwaitingFounder? || tip.value.endedAt.None?
    then None else Some(tip.value.id)
  }

  /** Newest-run agreement: the relaunch guard reports a run exactly when the unattended close gate
      blocks on that run, it is the workspace's tip, and it ended awaiting the founder. */
  lemma {:induction false} GuardsAgree(runs: seq<Run>, events: map<string, seq<Event>>, ws: string, ticket: string,
                                       runId: string, seqOf: Sequence)
    ensures var tip := LatestRun(OfWorkspace(runs, ws), seqOf);
            TicketPendingCloseRun(runs, ws, ticket, seqOf) == Some(runId) <==>
            && tip.Some? && tip.value.id == runId && tip.value.status.AwaitingFounder? && tip.value.endedAt.Some?
            && tip.value.ticketId == Some(ticket)
            && TicketCloseGate(runs, events, ws, ticket, Unattended, seqOf) == Some(Block(runId, AwaitingFounderDecision))
  {
    hide LatestRun, OfTicket, OfWorkspace, TicketCloseDecisionFromEvents;
    var tip := LatestRun(OfWorkspace(runs, ws), seqOf);
    if tip.Some? && tip.value.ticketId == Some(ticket) {
      FilterKeepsLatest(OfWorkspace(runs, ws), ticket, seqOf);
    }
  }

  /** Runs of one age and number are one run. */
  ghost predicate Numbered(runs: seq<Run>, seqOf: Sequence) {
    forall a, b :: a in runs && b in runs && a.createdAt == b.createdAt && seqOf(a.id) == seqOf(b.id) ==> a == b
  }

  /** Where run numbers are distinct the newest run does not depend on the order the store lists runs in. */
  lemma {:induction false} LatestIgnoresListing(a: seq<Run>, b: seq<Run>, seqOf: Sequence)
    requires Numbered(a, seqOf) && (forall r :: r in a <==> r in b)
    ensures LatestRun(a, seqOf) == LatestRun(b, seqOf)
  {
    if b != [] {
      assert b[0] in a;
    }
    if a != [] {
      assert a[0] in b;
      var i := LatestIsNewest(a, seqOf);
      var j := LatestIsNewest(b, seqOf);
      assert a[i] in b && b[j] in a;
    }
  }

  /** Both guards give one answer for every listing of the same runs. */
  lemma {:induction false} GuardsIgnoreListing(a: seq<Run>, b: seq<Run>, events: map<string, seq<Event>>, ws: string,
                                               ticket: string, mode: Mode, seqOf: Sequence)
    requires Numbered(a, seqOf) && (forall r :: r in a <==> r in b)
    ensures TicketPendingCloseRun(a, ws, ticket, seqOf) == TicketPendingCloseRun(b, ws, ticket, seqOf)
    ensures TicketCloseGate(a, events, ws, ticket, mode, seqOf) == TicketCloseGate(b, events, ws, ticket, mode, seqOf)
  {
    hide LatestRun, OfTicket, OfWorkspace, Numbered, TicketCloseDecisionFromEvents;
    var hereA, hereB := OfWorkspace(a, ws), OfWorkspace(b, ws);
    NumberedPart(a, hereA, seqOf);
    NumberedPart(a, OfTicket(hereA, ticket), seqOf);
    LatestIgnoresListing(hereA, hereB, seqOf);
    LatestIgnoresListing(OfTicket(hereA, ticket), OfTicket(hereB, ticket), seqOf);
  }

  lemma NumberedPart(all: seq<Run>, part: seq<Run>, seqOf: Sequence)
    requires Numbered(all, seqOf) && forall r :: r in part ==> r in all
    ensures Numbered(part, seqOf)
  {
  }

  // ----- finalizing -----

  function FinalizedRun(r: Run, ws: string, ticket: string, now: int): Run {
    if r.workspaceId == ws && r.ticketId == Some(ticket) && Finalizable(r.status)
    then r.(status := Completed, endedAt := Some(now)) else r
  }

  function Finalized(runs: seq<Run>, ws: string, ticket: string, now: int): seq<Run> {
    seq(|runs|, i requires 0 <= i < |runs| => FinalizedRun(runs[i], ws, ticket, now))
  }

  /** Exactly the ticket's runs that await the founder or their archive are completed, and end now. */
  lemma FinalizedAt(runs: seq<Run>, ws: string, ticket: string, now: int, i: nat)
    requires i < |runs|
    ensures var r, done := runs[i], Finalized(runs, ws, ticket, now);
            && |done| == |runs|
            && (if r.workspaceId == ws && r.ticketId == Some(ticket) && (r.status == AwaitingFounder || r.status == AwaitingArchive)
                then done[i] == Run(r.id, ws, Some(ticket), Completed, r.createdAt, Some(now))
                else done[i] == r)
  {
  }

  lemma FinalizedAppend(a: seq<Run>, b: seq<Run>, w: string, t: string, now: int)
    ensures Finalized(a + b, w, t, now) == Finalized(a, w, t, now) + Finalized(b, w, t, now)
  {
  }

  lemma {:induction false} FinalizedOfWorkspace(runs: seq<Run>, w: string, t: string, ws: string, now: int)
    ensures OfWorkspace(Finalized(runs, w, t, now), ws) == Finalized(OfWorkspace(runs, ws), w, t, now)
  {
    if runs != [] {
      var front, last := runs[..|runs| - 1], runs[|runs| - 1];
      FinalizedOfWorkspace(front, w, t, ws, now);
      assert Finalized(runs, w, t, now)[..|runs| - 1] == Finalized(front, w, t, now);
      FinalizedAppend(OfWorkspace(front, ws), if last.workspaceId == ws then [last] else [], w, t, now);
    }
  }

  lemma {:induction false} FinalizedOfTicket(runs: seq<Run>, w: string, t: string, ticket: string, now: int)
    ensures OfTicket(Finalized(runs, w, t, now), ticket) == Finalized(OfTicket(runs, ticket), w, t, now)
  {
    if runs != [] {
      var front, last := runs[..|runs| - 1], runs[|runs| - 1];
      FinalizedOfTicket(front, w, t, ticket, now);
      assert Finalized(runs, w, t, now)[..|runs| - 1] == Finalized(front, w, t, now);
      FinalizedAppend(OfTicket(front, ticket), if last.ticketId == Some(ticket) then [last] else [], w, t, now);
    }
  }

  /** Finalizing moves no run in time. */
  lemma {:induction false} FinalizedLatest(runs: seq<Run>, w: string, t: string, now: int, seqOf: Sequence)
    ensures runs == [] ==> Finalized(runs, w, t, now) == []
    ensures runs != [] ==>
              LatestRun(Finalized(runs, w, t, now), seqOf) == Some(FinalizedRun(LatestRun(runs, seqOf).value, w, t, now))
  {
    if runs != [] {
      FinalizedLatest(runs[..|runs| - 1], w, t, now, seqOf);
      assert Finalized(runs, w, t, now)[..|runs| - 1] == Finalized(runs[..|runs| - 1], w, t, now);
    }
  }

  lemma LatestIsListed(runs: seq<Run>, seqOf: Sequence)
    requires runs != []
    ensures LatestRun(runs, seqOf).Some? && LatestRun(runs, seqOf).value in runs
  {
    var i := LatestIsNewest(runs, seqOf);
  }

  lemma FinalizedTip(runs: seq<Run>, ws: string, ticket: string, now: int, seqOf: Sequence)
    ensures var tip := LatestRun(OfWorkspace(Finalized(runs, ws, ticket, now), ws), seqOf);
            tip.Some? && tip.value.ticketId == Some(ticket) ==> !Finalizable(tip.value.status)
  {
    var here := OfWorkspace(runs, ws);
    FinalizedOfWorkspace(runs, ws, ticket, ws, now);
    FinalizedLatest(here, ws, ticket, now, seqOf);
    if here != [] {
      LatestIsListed(here, seqOf);
    }
  }

  lemma FinalizedLatestForTicket(runs: seq<Run>, ws: string, ticket: string, now: int, seqOf: Sequence)
    ensures var before := LatestRunForTicket(runs, ws, ticket, seqOf);
            LatestRunForTicket(Finalized(runs, ws, ticket, now), ws, ticket, seqOf)
            == if before.None? then None else Some(FinalizedRun(before.value, ws, ticket, now))
    ensures var latest := LatestRunForTicket(runs, ws, ticket, seqOf);
            latest.Some? ==> latest.value.workspaceId == ws && latest.value.ticketId == Some(ticket)
  {
    var here := OfWorkspace(runs, ws);
    FinalizedOfWorkspace(runs, ws, ticket, ws, now);
    FinalizedOfTicket(here, ws, ticket, ticket, now);
    FinalizedLatest(OfTicket(here, ticket), ws, ticket, now, seqOf);
    if OfTicket(here, ticket) != [] {
      LatestIsListed(OfTicket(here, ticket), seqOf);
    }
  }

  /** Finalizing a ticket's parked runs frees the ticket, except from a run that is held: the relaunch
      guard never fires on it again, and the close gate still blocks just when its newest run is held. */
  lemma {:induction false} FinalizedFreesTicketIff(runs: seq<Run>, events: map<string, seq<Event>>, ws: string, ticket: string,
                                                   now: int, seqOf: Sequence)
    ensures var latest := LatestRunForTicket(runs, ws, ticket, seqOf);
            TicketFree(Finalized(runs, ws, ticket, now), events, ws, ticket, seqOf)
            <==> (latest.Some? ==> !latest.value.status.Held?)
  {
    hide LatestRun, OfTicket, OfWorkspace, Finalized, TicketCloseDecisionFromEvents;
    FinalizedTip(runs, ws, ticket, now, seqOf);
    FinalizedLatestForTicket(runs, ws, ticket, now, seqOf);
    var after := Finalized(runs, ws, ticket, now);
    var latest := LatestRunForTicket(runs, ws, ticket, seqOf);
    if latest.Some? && latest.value.status.Held? {
      assert TicketCloseGate(after, events, ws, ticket, Unattended, seqOf).Some?;
    }
  }

  // ----- the store and the confirmation -----

  datatype CloseOutcome = Closed(committed: bool) | NotClosed(changedFiles: bool, committed: bool)

  class RunStore {
    var runs: seq<Run>                    // in the order the store lists them
    var events: map<string, seq<Event>>

    ghost predicate Valid()
      reads this
    {
      forall i, j :: 0 <= i < j < |runs| ==> runs[i].id != runs[j].id
    }

    constructor (runs: seq<Run>, events: map<string, seq<Event>>)
      requires forall i, j :: 0 <= i < j < |runs| ==> runs[i].id != runs[j].id
      ensures Valid() && this.runs == runs && this.events == events
    {
      this.runs, this.events := runs, events;
    }

    method GetRun(runId: string) returns (found: Option<nat>)
      requires Valid()
      ensures found.Some? ==> found.value < |runs| && runs[found.value].id == runId
      ensures found.None? ==> forall r :: r in runs ==> r.id != runId
    {
      for i := 0 to |runs|
        invariant forall j :: 0 <= j < i ==> runs[j].id != runId
      {
        if runs[i].id == runId {
          return Some(i);
        }
      }
      return None;
    }

    method RecordEvent(runId: string, event: Event)
      modifies this`events
      ensures events == old(events)[runId := EventsOf(old(events), runId) + [event]]
    {
      events := events[runId := (if runId in events then events[runId] else []) + [event]];
    }

    method SetRunStatus(i: nat, status: RunStatus, now: int)
      requires Valid() && i < |runs|
      modifies this`runs
      ensures Valid() && runs == old(runs)[i := old(runs)[i].(status := status, endedAt := if status.Running? then None else Some(now))]
    {
      runs := runs[i := runs[i].(status := status, endedAt := if status.Running? then None else Some(now))];
    }

    /** A parked run becomes completed; anything else is left alone. */
    method FinalizeAwaitingFounderRun(runId: string, now: int) returns (moved: bool)
      requires Valid()
      modifies this
      ensures Valid() && |runs| == |old(runs)| && SameDecisions(old(events), events)
      ensures moved <==> exists r :: r in old(runs) && r.id == runId && Finalizable(r.status)
      ensures events == if moved then old(events)[runId := EventsOf(old(events), runId) + [Event("run-finalized", None)]]
                        else old(events)
      ensures forall i :: 0 <= i < |runs| ==>
                runs[i] == if old(runs)[i].id == runId && Finalizable(old(runs)[i].status)
                           then old(runs)[i].(status := Completed, endedAt := Some(now)) else old(runs)[i]
    {
      var run := GetRun(runId);
      if run.None? || !Finalizable(runs[run.value].status) {
        return false;
      }
      assert old(runs)[run.value] in old(runs);
      RecordEvent(runId, Event("run-finalized", None));
      KeepsDecision(EventsOf(old(events), runId), Event("run-finalized", None));
      SetRunStatus(run.value, Completed, now);
      moved := true;
    }

    method FinalizeAwaitingFounderRunsForTicket(ws: string, ticket: string, now: int)
      requires Valid()
      modifies this
      ensures Valid() && runs == Finalized(old(runs), ws, ticket, now) && SameDecisions(old(events), events)
      ensures Noted(old(events), events, old(runs), ws, ticket)
    {
      hide SameDecisions, Noted, TicketCloseDecisionFromEvents;
      var listed := runs;
      NothingNoted(events, ws, ticket);
      for i := 0 to |listed|
        invariant Valid() && SameDecisions(old(events), events) && |runs| == |listed|
        invariant Noted(old(events), events, listed[..i], ws, ticket)
        invariant forall j :: 0 <= j < |listed| ==>
                    runs[j] == if j < i then FinalizedRun(listed[j], ws, ticket, now) else listed[j]
      {
        var run := listed[i];
        ghost var before := events;
        if run.workspaceId == ws && run.ticketId == Some(ticket) && Finalizable(run.status) {
          assert runs[i] in runs;
          var moved := FinalizeAwaitingFounderRun(run.id, now);
          StillSame(old(events), before, events);
        }
        NotedSnoc(old(events), before, events, listed, i, ws, ticket);
      }
      assert listed[..|listed|] == listed;
    }

    /** The founder confirms the close of the ticket a run was launched for. `active`: the run still holds
        its slot; `delivered`: its delivered closeout asks for the close, if its events do not; `outcome`:
        what closing the ticket file and committing it come to. */
    method RequestTicketCloseConfirmation(runId: string, knownWorkspace: bool, active: bool, delivered: bool,
                                          outcome: CloseOutcome, now: int, seqOf: Sequence)
      returns (status: nat, closed: bool)
      requires Valid()
      modifies this
      ensures Valid()
      ensures closed <==> exists r :: r in old(runs) && r.id == runId && knownWorkspace && !active && outcome == Closed(true)
                            && Confirmable(old(runs), old(events), r, delivered, seqOf)
      ensures closed ==> exists r :: r in old(runs) && r.id == runId && r.ticketId.Some?
                           && runs == Finalized(old(runs), r.workspaceId, r.ticketId.value, now)
      ensures !closed ==> runs == old(runs)
      ensures status == 404 <==> !Known(old(runs), runId, knownWorkspace)
      ensures closed ==> status == 200
      ensures !closed ==>
                var reached := exists r :: r in old(runs) && r.id == runId && knownWorkspace && !active
                                           && Confirmable(old(runs), old(events), r, delivered, seqOf);
                && status in {200, 404, 409, 500}
                && (status == 200 <==> reached && outcome == NotClosed(true, true))
                && (status == 500 <==> reached && outcome in {NotClosed(true, false), Closed(false)})
      ensures closed ==>
                var log := EventsOf(events, runId);
                |log| >= 2 && log[|log| - 2..] == [Event("run-finalized", None), Event("ticket-close-confirmation-closed", None)]
      ensures !closed ==>
                || events == old(events)
                || (delivered && events == old(events)[runId := EventsOf(old(events), runId) + [Event("wrap-disposition", Some("ask"))]])
    {
      hide PassesGate, TicketCloseGate, Finalized, LatestRun, OfTicket, OfWorkspace;
      var found := GetRun(runId);
      if found.None? {
        return 404, false;
      }
      var run := runs[found.value];
      if run.ticketId.None? || run.ticketId.value == "" {
        return 409, false;
      }
      var ticket := run.ticketId.value;
      if !knownWorkspace {
        return 404, false;
      }
      if active {
        return 409, false;
      }
      if !run.status.AwaitingFounder? || run.endedAt.None? {
        return 409, false;
      }
      var passes := GateOrRecover(run, ticket, delivered, seqOf);
      if !passes {
        return 409, false;
      }
      match outcome {
        case NotClosed(changedFiles, committed) =>
          return (if !changedFiles then 409 else if committed then 200 else 500), false;
        case Closed(committed) =>
          if !committed {
            return 500, false;
          }
      }
      FinalizeConfirmed(found.value, ticket, now, seqOf);
      status, closed := 200, true;
    }

    /** The gate in founder mode; a closeout that was delivered but not recorded is recorded first. */
    method GateOrRecover(run: Run, ticket: string, delivered: bool, seqOf: Sequence) returns (passes: bool)
      modifies this`events
      ensures passes <==> PassesGate(runs, old(events), run, ticket, delivered, seqOf)
      ensures events == old(events)
           || (passes && delivered
               && events == old(events)[run.id := EventsOf(old(events), run.id) + [Event("wrap-disposition", Some("ask"))]])
    {
      var block := TicketCloseGate(runs, events, run.workspaceId, ticket, FounderConfirmation(run.id), seqOf);
      if block.Some? && block.value.reason.NotAwaitingTicketCloseConfirmation? && delivered {
        RecordEvent(run.id, Event("wrap-disposition", Some("ask")));
        block := TicketCloseGate(runs, events, run.workspaceId, ticket, FounderConfirmation(run.id), seqOf);
      }
      passes := block.None?;
    }

    /** The close is committed: every parked run of the ticket is completed. */
    method FinalizeConfirmed(i: nat, ticket: string, now: int, seqOf: Sequence)
      requires Valid() && i < |runs| && runs[i].ticketId == Some(ticket) && runs[i].status.AwaitingFounder?
      modifies this
      ensures Valid() && runs == Finalized(old(runs), old(runs)[i].workspaceId, ticket, now)
      ensures var r := old(runs)[i].id;
              EventsOf(events, r) == EventsOf(old(events), r)
                                     + [Event("run-finalized", None)] + [Event("ticket-close-confirmation-closed", None)]
    {
      var ws := runs[i].workspaceId;
      ghost var r := runs[i].id;
      assert Parked(runs, ws, ticket, r);
      FinalizeAwaitingFounderRunsForTicket(ws, ticket, now);
      SetRunStatus(i, Completed, now);
      RecordEvent(runs[i].id, Event("ticket-close-confirmation-closed", None));
    }
  }

  /** The run of this id waits to be finalized with the ticket. */
  ghost predicate Parked(runs: seq<Run>, ws: string, ticket: string, runId: string) {
    exists k :: 0 <= k < |runs| && runs[k].id == runId && runs[k].workspaceId == ws && runs[k].ticketId == Some(ticket)
                && runs[k].status in {AwaitingFounder, AwaitingArchive}
  }

  /** Exactly these runs have been finalized once more. */
  ghost predicate Noted(before: map<string, seq<Event>>, after: map<string, seq<Event>>, runs: seq<Run>, ws: string, ticket: string) {
    forall r: string ::
      EventsOf(after, r) == EventsOf(before, r) + if Parked(runs, ws, ticket, r) then [Event("run-finalized", None)] else []
  }

  lemma NothingNoted(events: map<string, seq<Event>>, ws: string, ticket: string)
    ensures Noted(events, events, [], ws, ticket)
    ensures SameDecisions(events, events)
  {
  }

  lemma StillSame(a: map<string, seq<Event>>, b: map<string, seq<Event>>, c: map<string, seq<Event>>)
    requires SameDecisions(a, b) && SameDecisions(b, c)
    ensures SameDecisions(a, c)
  {
  }

  lemma NotedSnoc(before: map<string, seq<Event>>, mid: map<string, seq<Event>>, after: map<string, seq<Event>>,
                  runs: seq<Run>, i: nat, ws: string, ticket: string)
    requires i < |runs| && (forall k :: 0 <= k < i ==> runs[k].id != runs[i].id)
    requires Noted(before, mid, runs[..i], ws, ticket)
    requires var run := runs[i];
             after == if run.workspaceId == ws && run.ticketId == Some(ticket) && Finalizable(run.status)
                      then mid[run.id := EventsOf(mid, run.id) + [Event("run-finalized", None)]] else mid
    ensures Noted(before, after, runs[..i + 1], ws, ticket)
  {
    hide Parked;
    ParkedSnoc(runs, i, ws, ticket);
  }

  lemma ParkedSnoc(runs: seq<Run>, i: nat, ws: string, ticket: string)
    requires i < |runs|
    ensures var parks := runs[i].workspaceId == ws && runs[i].ticketId == Some(ticket) && Finalizable(runs[i].status);
            forall r :: Parked(runs[..i + 1], ws, ticket, r) <==> Parked(runs[..i], ws, ticket, r) || (parks && r == runs[i].id)
    ensures (forall k :: 0 <= k < i ==> runs[k].id != runs[i].id) ==> !Parked(runs[..i], ws, ticket, runs[i].id)
  {
    assert runs[..i + 1] == runs[..i] + [runs[i]];
  }

  /** The run exists, and its workspace does if it is asked for. */
  ghost predicate Known(runs: seq<Run>, runId: string, knownWorkspace: bool) {
    exists r :: r in runs && r.id == runId && (knownWorkspace || r.ticketId.None? || r.ticketId.value == "")
  }

  ghost predicate SameDecisions(before: map<string, seq<Event>>, after: map<string, seq<Event>>) {
    forall r: string :: TicketCloseDecisionFromEvents(EventsOf(after, r)) == TicketCloseDecisionFromEvents(EventsOf(before, r))
  }

  lemma KeepsDecision(events: seq<Event>, e: Event)
    requires e.kind != "wrap-disposition"
    ensures TicketCloseDecisionFromEvents(events + [e]) == TicketCloseDecisionFromEvents(events)
  {
    assert (events + [e])[..|events|] == events;
  }

  /** The newest run of the ticket is this one and has asked for the close, or no longer waits. */
  ghost predicate PassesGate(runs: seq<Run>, events: map<string, seq<Event>>, r: Run, ticket: string, delivered: bool,
                             seqOf: Sequence) {
    var latest := LatestRunForTicket(runs, r.workspaceId, ticket, seqOf);
    latest.Some? && AwaitsFounder(latest.value.status) ==>
      && latest.value.id == r.id
      && (delivered || TicketCloseDecisionFromEvents(EventsOf(events, r.id)) == Some(AskFounder))
  }

  /** The run is parked on a ticket whose gate lets the founder through. */
  ghost predicate Confirmable(runs: seq<Run>, events: map<string, seq<Event>>, r: Run, delivered: bool, seqOf: Sequence) {
    && r.ticketId.Some? && r.ticketId.value != "" && r.status.AwaitingFounder? && r.endedAt.Some?
    && PassesGate(runs, events, r, r.ticketId.value, delivered, seqOf)
  }

  /** After a confirmed close neither guard holds the ticket back, whatever events there are. */
  lemma ConfirmedCloseFreesTicket(runs: seq<Run>, events: map<string, seq<Event>>, r: Run, delivered: bool, now: int,
                                  later: map<string, seq<Event>>, seqOf: Sequence)
    requires forall i, j :: 0 <= i < j < |runs| ==> runs[i].id != runs[j].id
    requires r in runs && Confirmable(runs, events, r, delivered, seqOf)
    ensures TicketFree(Finalized(runs, r.workspaceId, r.ticketId.value, now), later, r.workspaceId, r.ticketId.value, seqOf)
  {
    hide OfTicket, OfWorkspace, Finalized, TicketCloseDecisionFromEvents, TicketFree;
    var ticket := r.ticketId.value;
    var mine := OfTicket(OfWorkspace(runs, r.workspaceId), ticket);
    LatestIsListed(mine, seqOf);
    FinalizedFreesTicketIff(runs, later, r.workspaceId, ticket, now, seqOf);
  }

  /** Runs of other tickets and workspaces are as they were. */
  lemma OtherRunsUnchanged(runs: seq<Run>, ws: string, ticket: string, now: int, otherWs: string, other: string)
    requires other != ticket || otherWs != ws
    ensures OfTicket(OfWorkspace(Finalized(runs, ws, ticket, now), otherWs), other) == OfTicket(OfWorkspace(runs, otherWs), other)
  {
    hide OfTicket, OfWorkspace;
    var theirs := OfTicket(OfWorkspace(runs, otherWs), other);
    FinalizedOfWorkspace(runs, ws, ticket, otherWs, now);
    FinalizedOfTicket(OfWorkspace(runs, otherWs), ws, ticket, other, now);
    assert Finalized(theirs, ws, ticket, now) == theirs by {
      forall i | 0 <= i < |theirs| ensures FinalizedRun(theirs[i], ws, ticket, now) == theirs[i] {
        assert theirs[i] in theirs;
      }
    }
  }

  /** Neither guard holds the ticket back. */
  ghost predicate TicketFree(runs: seq<Run>, events: map<string, seq<Event>>, ws: string, ticket: string, seqOf: Sequence) {
    && TicketPendingCloseRun(runs, ws, ticket, seqOf) == None
    && forall mode :: TicketCloseGate(runs, events, ws, ticket, mode, seqOf) == None
  }
}
