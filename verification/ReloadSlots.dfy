/** The reload machine's slots are the run-slot machine's: what a run does to its slot is a launch, a
    refusal or a freeing to a pending reload (packages/daemon/src/launcher.ts). */
module ReloadSlots {
  import opened Outcomes
  import R = Reload
  import S = RunSlots

  /** What a move of the run slots is to the reload machine. */
  function Seen(s: S.State, m: S.Step): Option<R.Step>
    requires S.Enabled(s, m)
  {
    match m
    case Admit(n, limit) => if |s.inFlight| < limit then Some(R.Launch(s.launches[n].workspace)) else None
    case Refuse(n) => Some(R.RefuseLaunch(s.launches[n].workspace))
    case Settle(r, _, _, _) => Some(R.Free(s.drivers[r]))
    case _ => None
  }

  /** The slot of a reserved launch, and of a driven run, is taken. */
  lemma ReservedIsTaken(s: S.State, n: nat)
    requires S.SlotsTrue(s) && n in s.launches && s.launches[n].Reserved?
    ensures s.launches[n].workspace in s.inFlight
  {
    assert S.Reserver(s.launches, n, s.launches[n].workspace);
  }

  lemma DrivenIsTaken(s: S.State, r: string)
    requires S.SlotsTrue(s) && r in s.drivers
    ensures s.drivers[r] in s.inFlight
  {
  }

  predicate TakesOrFrees(m: S.Step) {
    m.Admit? || m.Refuse? || m.Create? || m.Resume? || m.Settle?
  }

  lemma OthersKeepKeys(s: S.State, m: S.Step)
    requires S.Enabled(s, m) && !TakesOrFrees(m) && !m.Boot? && !m.Crash?
    ensures S.Next(s, m).inFlight == s.inFlight
  {
    hide S.LaneOf, S.Finalizable;
  }

  lemma AdmitKeys(s: S.State, n: nat, limit: nat)
    requires S.Enabled(s, S.Admit(n, limit))
    ensures S.Next(s, S.Admit(n, limit)).inFlight.Keys ==
            if |s.inFlight| < limit then s.inFlight.Keys + {s.launches[n].workspace} else s.inFlight.Keys
  {
  }

  lemma DriveKeys(s: S.State, m: S.Step)
    requires S.SlotsTrue(s) && S.Enabled(s, m) && (m.Create? || m.Resume?)
    ensures S.Next(s, m).inFlight.Keys == s.inFlight.Keys
  {
    hide S.SlotsTrue;
    ReservedIsTaken(s, m.launch);
  }

  lemma FreeKeys(s: S.State, m: S.Step)
    requires S.SlotsTrue(s) && S.Enabled(s, m) && (m.Refuse? || m.Settle?)
    ensures var ws := if m.Refuse? then s.launches[m.launch].workspace else s.drivers[m.runId];
            ws in s.inFlight && S.Next(s, m).inFlight.Keys == s.inFlight.Keys - {ws}
  {
    hide S.SlotsTrue, S.LaneOf;
    if m.Refuse? {
      ReservedIsTaken(s, m.launch);
    } else {
      DrivenIsTaken(s, m.runId);
    }
  }

  /** Every move of the run slots, short of a restart and of an overlapping reservation, takes and frees
      the slots the reload machine sees taken and freed. */
  lemma SlotsAgree(s: S.State, m: S.Step, t: R.State)
    requires S.SlotsTrue(s) && S.Enabled(s, m) && !S.Overlaps(s, m) && !m.Boot? && !m.Crash?
    requires t.slots == s.inFlight.Keys
    ensures Seen(s, m).Some? ==> R.Enabled(t, Seen(s, m).value)
    ensures (if Seen(s, m).Some? then R.Next(t, Seen(s, m).value) else t).slots == S.Next(s, m).inFlight.Keys
  {
    hide S.SlotsTrue, S.Next;
    if m.Admit? {
      AdmitKeys(s, m.launch, m.limit);
    } else if m.Refuse? || m.Settle? {
      FreeKeys(s, m);
    } else if m.Create? || m.Resume? {
      DriveKeys(s, m);
    } else {
      OthersKeepKeys(s, m);
    }
  }

  /** The last slot freed with a request pending is looked at again exactly when it is a run that frees it. */
  lemma LastSlotFreed(s: S.State, m: S.Step, t: R.State)
    requires S.SlotsTrue(s) && S.Enabled(s, m) && (m.Refuse? || m.Settle?)
    requires t.slots == s.inFlight.Keys && t.pending.Some? && !t.running && t.owed == 0
    requires S.Next(s, m).inFlight == map[]
    ensures R.Enabled(t, Seen(s, m).value)
    ensures R.Next(t, Seen(s, m).value).owed > 0 <==> m.Settle?
  {
    SlotsAgree(s, m, t);
  }
}
