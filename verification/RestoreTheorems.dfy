/** Exactly which lists a restore to HEAD puts back without losing anything, and what any restore leaves
    alone (packages/core/src/commit-gate/git.ts). */
module RestoreTheorems {
  import opened Outcomes
  import opened Paths
  import opened Repository
  import opened RestoreSteps

  // ----- what no later step undoes -----

  /** What holds between a checkout and any later one of the same restore. */
  ghost predicate Onward(c: Checkout, d: Checkout) {
    && d.head == c.head
    && (forall p :: p in c.head && p in c.index ==> p in d.index && SameAt(d.quarantine, c.quarantine, p))
    && (forall p :: p !in c.head && p in d.index ==> p in c.index)
    && (forall p :: p !in c.head && p !in c.work ==> p !in d.work)
    && (forall p :: p !in c.work ==> SameAt(d.quarantine, c.quarantine, p))
    && (forall p :: p in d.work && p !in c.work ==> p in c.head && p in d.index)
    && (forall p :: p in c.head && p in c.index && c.index[p] == c.head[p] ==> d.index[p] == c.head[p])
    && (forall p :: p in c.head && p in c.index && p in c.work && c.work[p] == c.head[p]
          ==> p in d.work && d.work[p] == c.head[p])
  }

  lemma CheckoutOnward(c: Checkout, f: string)
    ensures var patch := Select(c.head, f);
            Onward(c, c.(index := Overlay(c.index, patch), work := Overlay(c.work, patch)))
  {
    hide Select, Overlay, At, NoneAbove, Hit;
    var patch := Select(c.head, f);
    forall p | p in c.head ensures !Hit(p, patch) {
      HeadNotHit(c.head, f, p);
    }
  }

  lemma HeadNotHit(head: Tree, f: string, p: string)
    requires p in head
    ensures !Hit(p, Select(head, f))
  {
    forall q | q in Select(head, f) ensures !Clash(p, q) {
      NoClash(head, p, q);
    }
  }

  lemma MoveOnward(c: Checkout, f: string)
    requires !Lists(c.index, f) && Room(c.quarantine, c.work, f)
    ensures Onward(c, c.(work := Clear(c.work, f), quarantine := Moved(c.quarantine, c.work, f)))
  {
    hide Clear, Moved, Room, NoneAbove, Under;
    assert forall p :: p in c.index ==> !At(p, f);
  }

  lemma StepOnward(c: Checkout, f: string)
    ensures RestoreOne(c, f).Some? ==> Onward(c, RestoreOne(c, f).value)
  {
    hide Onward, Lists, Room, NoneAbove;
    if RestoreOne(c, f).Some? {
      if Lists(c.index, f) {
        CheckoutOnward(c, f);
      } else {
        MoveOnward(c, f);
      }
    }
  }

  lemma OnwardTransitive(c: Checkout, d: Checkout, e: Checkout)
    requires Onward(c, d) && Onward(d, e)
    ensures Onward(c, e)
  {
    forall p | p !in c.work ensures SameAt(e.quarantine, c.quarantine, p) {
      assert SameAt(d.quarantine, c.quarantine, p);
      assert SameAt(e.quarantine, d.quarantine, p);
    }
  }

  lemma {:induction false} RestoreOnward(c: Checkout, files: seq<string>)
    ensures Onward(c, RestoreAll(c, files).0)
    decreases |files|
  {
    hide RestoreOne, Onward;
    if files == [] || RestoreOne(c, files[0]).None? {
      OnwardReflexive(c);
    } else {
      var next := RestoreOne(c, files[0]).value;
      StepOnward(c, files[0]);
      RestoreOnward(next, files[1..]);
      OnwardTransitive(c, next, RestoreAll(next, files[1..]).0);
    }
  }

  lemma OnwardReflexive(c: Checkout)
    ensures Onward(c, c)
  {
  }

  // ----- the rest of the list is told alike before and after a safe step -----

  ghost predicate AllKnown(c: Checkout, files: seq<string>) {
    forall i :: 0 <= i < |files| ==> Known(c, files[i])
  }

  /** A path of which a checkout left nothing in the index was not restorable, and is not. */
  lemma WipedIsNot(c: Checkout, f: string, d: Checkout, rest: seq<string>, j: nat)
    requires ChecksOut(c, f, d) && Known(c, f) && j < |rest|
    requires Lists(c.index, rest[j]) && !Lists(d.index, rest[j])
    ensures !RestorableAt(c, [f] + rest, j + 1) && !RestorableAt(d, rest, j)
  {
    hide RestorableAt, ChecksOut, Lists, Known;
    assert ([f] + rest)[j + 1] == rest[j];
    LostFromIndex(c, f, d, rest[j]);
    HeadKept(c, f, d);
    NotInHead(c, [f] + rest, j + 1);
    NotThere(d, rest, j);
  }

  lemma HeadKept(c: Checkout, f: string, d: Checkout)
    requires ChecksOut(c, f, d)
    ensures d.head == c.head
  {
  }

  lemma NotInHead(c: Checkout, files: seq<string>, i: nat)
    requires i < |files| && Lists(c.index, files[i]) && !Lists(c.head, files[i])
    ensures !RestorableAt(c, files, i)
  {
    hide Lists, Rescued, Reset, Threatens;
  }

  lemma NotThere(c: Checkout, files: seq<string>, i: nat)
    requires i < |files| && !Lists(c.index, files[i]) && !Lists(c.head, files[i]) && !Lists(c.work, files[i])
    ensures !RestorableAt(c, files, i)
  {
    hide Lists, Rescued, Reset, Threatens;
  }

  /** A path that a checkout has made tracked was restorable for that, and is. */
  lemma GainedIs(c: Checkout, f: string, d: Checkout, rest: seq<string>, j: nat)
    requires ChecksOut(c, f, d) && Known(c, f) && j < |rest| && Awaited(c, [f] + rest)
    requires !Lists(c.index, rest[j]) && Lists(d.index, rest[j])
    ensures RestorableAt(c, [f] + rest, j + 1) && RestorableAt(d, rest, j)
  {
    hide NoneAbove, Rescued, Tracked, Under, ChecksOut, Known, Threatens, Lists;
    var files, e := [f] + rest, rest[j];
    HeadKept(c, f, d);
    NotBoth(c, f, d);
    GainedInIndex(c, f, d, e);
    assert files[j + 1] == e && files[0] == f && files[..j + 1][0] == f;
    forall p | Untracked(d, p)
      ensures !Threatens(d, e, p) && (At(p, e) && p !in d.head ==> Rescued(d, rest, |rest|, p))
    {
      UntrackedAfterCheckout(c, f, d, p);
      ThreatFromAbove(c, f, d, e, p);
      if At(p, e) && p !in d.head {
        BelowIsAt(p, e, f);
        RescuedAfter(c, f, d, rest, |rest|, p);
        WasTracked(c, f, d);
      }
    }
  }

  lemma WasTracked(c: Checkout, f: string, d: Checkout)
    requires ChecksOut(c, f, d)
    ensures Lists(c.index, f)
  {
  }

  lemma BelowIsAt(p: string, e: string, f: string)
    requires At(p, e) && Under(e, f)
    ensures At(p, f)
  {
    if p != e {
      UnderTransitive(p, e, f);
    }
  }

  lemma NotBoth(c: Checkout, f: string, d: Checkout)
    requires ChecksOut(c, f, d)
    ensures !Moves(c, f, d)
  {
  }

  /** A path below a safe one threatens nothing that was untracked. */
  lemma ThreatFromAbove(c: Checkout, f: string, d: Checkout, e: string, p: string)
    requires ChecksOut(c, f, d) && Under(e, f) && Untracked(c, p) && p in d.work && d.work[p] == c.work[p]
    ensures !Threatens(d, e, p)
  {
    hide NoneAbove, Under;
    assert !Threatens(c, f, p);
    forall h | h in d.head && At(h, e) ensures !Clash(h, p) && !(h == p && d.head[h] != d.work[p]) {
      BelowIsAt(h, e, f);
    }
  }

  /** A tracked path that stays so is told alike. */
  lemma TrackedIsAlike(c: Checkout, f: string, d: Checkout, rest: seq<string>, j: nat)
    requires ChecksOut(c, f, d) && Known(c, f) && j < |rest|
    requires Lists(c.index, rest[j]) && Lists(d.index, rest[j])
    ensures RestorableAt(c, [f] + rest, j + 1) <==> RestorableAt(d, rest, j)
  {
    hide NoneAbove, Rescued, Tracked, Under, Reset, ChecksOut, Known, Threatens, Lists, StepSafe;
    var files, e := [f] + rest, rest[j];
    assert files[j + 1] == e && |files| == |rest| + 1;
    NotBoth(c, f, d);
    HeadKept(c, f, d);
    WasTracked(c, f, d);
    FirstSafe(c, f, d);
    forall p | p in c.work && Untracked(c, p)
      ensures Untracked(d, p) || (p in c.head && !Threatens(c, e, p))
      ensures Untracked(d, p) ==>
                && (Threatens(d, e, p) <==> Threatens(c, e, p))
                && (Rescued(c, files, j + 1, p) <==> Rescued(d, rest, j, p))
                && (Rescued(c, files, |files|, p) <==> Rescued(d, rest, |rest|, p))
    {
      UntrackedAfterCheckout(c, f, d, p);
      RescuedAfter(c, f, d, rest, j, p);
      RescuedAfter(c, f, d, rest, |rest|, p);
      if p in c.head && At(p, f) {
        NoThreatToHead(c, f, e, p);
      }
      if Untracked(d, p) {
        SameThreat(c, d, e, p);
      }
    }
    forall p | p in d.work && Untracked(d, p) ensures p in c.work && Untracked(c, p) {
      UntrackedAfterCheckout(c, f, d, p);
    }
  }

  lemma SameThreat(c: Checkout, d: Checkout, e: string, p: string)
    requires d.head == c.head && p in c.work && p in d.work && d.work[p] == c.work[p]
    ensures Threatens(d, e, p) <==> Threatens(c, e, p)
  {
    hide NoneAbove, Clash, At;
  }

  /** Untracked content that a safe checkout brings back as it is, is threatened by no path. */
  lemma NoThreatToHead(c: Checkout, f: string, e: string, p: string)
    requires StepSafe(c, f) && Lists(c.index, f) && Untracked(c, p) && p in c.head && At(p, f)
    ensures !Threatens(c, e, p)
  {
    hide NoneAbove;
    assert !Threatens(c, f, p);
    forall h | h in c.head && At(h, e) ensures !Clash(h, p) && !(h == p && c.head[h] != c.work[p]) {
      NoClash(c.head, h, p);
    }
  }

  /** A path that is and stays untracked is told alike after a checkout. */
  lemma UntrackedIsAlike(c: Checkout, f: string, d: Checkout, rest: seq<string>, j: nat)
    requires ChecksOut(c, f, d) && Known(c, f) && j < |rest|
    requires !Lists(c.index, rest[j]) && !Lists(d.index, rest[j])
    ensures RestorableAt(c, [f] + rest, j + 1) <==> RestorableAt(d, rest, j)
  {
    hide NoneAbove, Rescued, Tracked, Under, Reset;
    var files, e := [f] + rest, rest[j];
    assert files[j + 1] == e && files[..j + 1] == [f] + rest[..j];
    NotBoth(c, f, d);
    GainedInIndex(c, f, d, e);
    ResetAfter(c, f, d, rest[..j], e);
    ResetAfter(c, f, d, rest, e);
    forall p | At(p, e)
      ensures p in c.work <==> p in d.work
      ensures p in c.work ==> (Rescued(c, files, j + 1, p) <==> Rescued(d, rest, j, p))
    {
      SameWorkAt(c, f, d, e, p);
      if p in c.work {
        RescuedAfter(c, f, d, rest, j, p);
      }
    }
  }

  lemma SameWorkAt(c: Checkout, f: string, d: Checkout, e: string, p: string)
    requires ChecksOut(c, f, d) && !Lists(c.index, e) && !Lists(d.index, e) && At(p, e)
    ensures p in c.work <==> p in d.work
    ensures p in c.work ==> Untracked(c, p)
  {
    hide NoneAbove, Under;
    assert p !in c.index && p !in d.index;
    if p in c.work {
      UntrackedAfterCheckout(c, f, d, p);
    }
  }

  /** Every later path is told alike after a move. */
  lemma AlikeAfterMove(c: Checkout, f: string, d: Checkout, rest: seq<string>, j: nat)
    requires Moves(c, f, d) && Known(c, f) && j < |rest|
    ensures RestorableAt(c, [f] + rest, j + 1) <==> RestorableAt(d, rest, j)
  {
    hide NoneAbove, Rescued, Tracked, Under, Reset, Moved, Clear, Room;
    var files, e := [f] + rest, rest[j];
    assert files[j + 1] == e && files[..j + 1] == [f] + rest[..j] && |files| == |rest| + 1;
    ResetAfter(c, f, d, rest[..j], e);
    ResetAfter(c, f, d, rest, e);
    assert At(f, f) && !TypeChanged(c, f);
    forall p | p in c.work && Untracked(c, p)
      ensures Rescued(c, files, j + 1, p) <==> At(p, f) || Rescued(d, rest, j, p)
      ensures Rescued(c, files, |files|, p) <==> At(p, f) || Rescued(d, rest, |rest|, p)
      ensures Untracked(d, p) <==> !At(p, f)
      ensures Untracked(d, p) ==> (Threatens(d, e, p) <==> Threatens(c, e, p))
    {
      RescuedAfter(c, f, d, rest, j, p);
      RescuedAfter(c, f, d, rest, |rest|, p);
      UntrackedAfterMove(c, f, d, p);
    }
    if Lists(c.index, e) {
      forall p | p in d.work && Untracked(d, p) ensures p in c.work && Untracked(c, p) {
        UntrackedAfterMove(c, f, d, p);
      }
    } else {
      MovedAlike(c, f, d, files, rest, j, e);
    }
  }

  lemma MovedAlike(c: Checkout, f: string, d: Checkout, files: seq<string>, rest: seq<string>, j: nat, e: string)
    requires Moves(c, f, d) && j <= |rest| && j + 1 <= |files| && !Lists(c.index, e)
    requires forall p :: p in c.work && Untracked(c, p) ==>
               (Rescued(c, files, j + 1, p) <==> At(p, f) || Rescued(d, rest, j, p))
    ensures (&& Lists(c.work, e) && (forall p :: p in c.work && At(p, e) ==> !Rescued(c, files, j + 1, p))
             && forall q :: q in c.quarantine ==> !Under(q, e))
        <==> (&& Lists(d.work, e) && (forall p :: p in d.work && At(p, e) ==> !Rescued(d, rest, j, p))
              && forall q :: q in d.quarantine ==> !Under(q, e))
  {
    hide NoneAbove, Rescued, Room;
    assert forall p :: p in c.work && At(p, e) ==> Untracked(c, p);
    if p :| p in c.work && At(p, e) && At(p, f) {
      assert Rescued(c, files, j + 1, p);
      if p == e {
        forall q | At(q, e) ensures q !in d.work {
          if q in c.work && q != e {
            NoClash(c.work, q, e);
          }
        }
      } else {
        assert p in d.quarantine && Under(p, e);
      }
    } else {
      assert forall p :: At(p, e) ==> (p in c.work <==> p in d.work);
      assert forall q :: q in d.quarantine && q !in c.quarantine ==> q in c.work && At(q, f);
    }
  }

  lemma RestorableAfter(c: Checkout, files: seq<string>, d: Checkout)
    requires files != [] && StepsTo(c, files[0], d) && Known(c, files[0]) && Awaited(c, files)
    ensures Restorable(c, files) <==> Restorable(d, files[1..])
  {
    hide RestorableAt, Awaited, ChecksOut, Moves;
    var f, rest := files[0], files[1..];
    assert files == [f] + rest;
    FirstSafe(c, f, d);
    FirstIff(c, files);
    forall j | 0 <= j < |rest| ensures RestorableAt(c, files, j + 1) <==> RestorableAt(d, rest, j) {
      if Moves(c, f, d) {
        AlikeAfterMove(c, f, d, rest, j);
      } else if !Lists(c.index, rest[j]) && !Lists(d.index, rest[j]) {
        UntrackedIsAlike(c, f, d, rest, j);
      } else if !Lists(c.index, rest[j]) {
        GainedIs(c, f, d, rest, j);
      } else if !Lists(d.index, rest[j]) {
        WipedIsNot(c, f, d, rest, j);
      } else {
        TrackedIsAlike(c, f, d, rest, j);
      }
    }
    if Restorable(d, rest) {
      forall i | 0 <= i < |files| ensures RestorableAt(c, files, i) {
        if i > 0 {
          assert RestorableAt(d, rest, i - 1);
        }
      }
    }
    if Restorable(c, files) {
      forall j | 0 <= j < |rest| ensures RestorableAt(d, rest, j) {
        assert RestorableAt(c, files, j + 1);
      }
    }
  }

  lemma FirstSafe(c: Checkout, f: string, d: Checkout)
    requires StepsTo(c, f, d)
    ensures StepSafe(c, f)
  {
  }

  // ----- what becomes of untracked files and of HEAD's under a restorable list -----

  /** The setting of an induction over a restorable list: its first step is safe, and so is the rest. */
  lemma Unfold(c: Checkout, files: seq<string>) returns (d: Checkout)
    requires files != [] && Restorable(c, files) && Apart(c) && AllKnown(c, files)
    ensures RestoreOne(c, files[0]) == Some(d) && StepsTo(c, files[0], d)
    ensures Restorable(d, files[1..]) && Apart(d) && AllKnown(d, files[1..])
    ensures RestoreAll(c, files).0 == RestoreAll(d, files[1..]).0 && Onward(d, RestoreAll(c, files).0)
    ensures files == [files[0]] + files[1..]
  {
    hide RestoreOne, StepSafe, RestorableAt, Apart, Known, ChecksOut, Moves, Awaited, Onward;
    assert RestorableAt(c, files, 0);
    FirstIff(c, files);
    SafeStep(c, files[0]);
    d := RestoreOne(c, files[0]).value;
    RestorableAfter(c, files, d);
    StepKeepsApart(c, files[0], d);
    forall i | 0 <= i < |files[1..]| ensures Known(d, files[1..][i]) {
      StepKeepsKnown(c, files[0], d, files[i + 1]);
    }
    RestoreOnward(d, files[1..]);
  }

  /** An untracked file that is not HEAD's leaves the working tree exactly when the list rescues it. */
  lemma {:induction false} LeavesIffRescued(c: Checkout, files: seq<string>, p: string)
    requires Restorable(c, files) && Apart(c) && AllKnown(c, files) && Untracked(c, p) && p !in c.head
    ensures p !in RestoreAll(c, files).0.work <==> Rescued(c, files, |files|, p)
    decreases |files|
  {
    hide RestoreOne, Restorable, Apart, Known, ChecksOut, Moves, Rescued, NoneAbove;
    if files == [] {
      NobodyRescued(c, p);
    } else {
      var d := Unfold(c, files);
      RescuedAfter(c, files[0], d, files[1..], |files[1..]|, p);
      LeavesStep(c, files[0], d, p);
      if Untracked(d, p) {
        LeavesIffRescued(d, files[1..], p);
      }
    }
  }

  lemma NobodyRescued(c: Checkout, p: string)
    ensures !Rescued(c, [], 0, p)
  {
  }

  lemma LeavesStep(c: Checkout, f: string, d: Checkout, p: string)
    requires StepsTo(c, f, d) && Untracked(c, p) && p !in c.head
    ensures Untracked(d, p) <==> !(Moves(c, f, d) && At(p, f))
    ensures !Untracked(d, p) ==> p !in d.work
    ensures d.head == c.head
  {
    hide NoneAbove;
    if ChecksOut(c, f, d) {
      UntrackedAfterCheckout(c, f, d, p);
    } else {
      UntrackedAfterMove(c, f, d, p);
    }
  }

  ghost predicate Back(d: Checkout, h: string)
    requires h in d.head
  {
    h in d.index && d.index[h] == d.head[h] && h in d.work && d.work[h] == d.head[h]
  }

  /** What HEAD has at or below an untracked path comes back exactly when a listed type change resets it. */
  lemma {:induction false} BackIffReset(c: Checkout, files: seq<string>, f: string, h: string)
    requires Restorable(c, files) && Apart(c) && AllKnown(c, files)
    requires !Lists(c.index, f) && h in c.head && At(h, f)
    ensures var after := RestoreAll(c, files).0;
            after.head == c.head && (h in after.index <==> Reset(c, files, f)) && (h in after.index ==> Back(after, h))
    decreases |files|
  {
    hide RestoreOne, Restorable, Apart, Known, ChecksOut, Moves, NoneAbove;
    if files != [] {
      var d := Unfold(c, files);
      ResetAfter(c, files[0], d, files[1..], f);
      ResetStep(c, files[0], d, f, h);
      if !Lists(d.index, f) {
        BackIffReset(d, files[1..], f, h);
      }
    }
  }

  lemma ResetStep(c: Checkout, e: string, d: Checkout, f: string, h: string)
    requires StepsTo(c, e, d) && Known(c, e) && !Lists(c.index, f) && h in c.head && At(h, f)
    ensures d.head == c.head && (Lists(d.index, f) <==> TypeChanged(c, e) && Under(f, e))
    ensures Lists(d.index, f) ==> Back(d, h)
  {
    hide NoneAbove, Under;
    if ChecksOut(c, e, d) {
      GainedInIndex(c, e, d, f);
      if TypeChanged(c, e) && Under(f, e) {
        BelowIsAt(h, f, e);
        assert h in Select(c.head, e);
      }
    } else {
      assert At(e, e);
    }
  }

  // ----- the first path at the end -----

  /** The first path is HEAD's again at the end exactly when what it awaits comes. */
  lemma HeadAgainIffAwaited(c: Checkout, files: seq<string>, d: Checkout)
    requires files != [] && StepsTo(c, files[0], d) && Apart(c) && Known(c, files[0])
    requires Restorable(d, files[1..]) && Apart(d) && AllKnown(d, files[1..])
    ensures HeadAgain(RestoreAll(d, files[1..]).0, files[0]) <==> Awaited(c, files)
  {
    hide Restorable, Apart, Known, AllKnown, NoneAbove, Awaited, HeadAgain, RestoreAll, ChecksOut, Moves;
    assert files == [files[0]] + files[1..];
    if ChecksOut(c, files[0], d) {
      AgainAfterCheckout(c, files[0], d, files[1..]);
    } else {
      AgainAfterMove(c, files[0], d, files[1..]);
    }
  }

  lemma AgainAfterCheckout(c: Checkout, f: string, d: Checkout, rest: seq<string>)
    requires ChecksOut(c, f, d) && Known(c, f)
    requires Restorable(d, rest) && Apart(d) && AllKnown(d, rest)
    ensures HeadAgain(RestoreAll(d, rest).0, f) <==> Awaited(c, [f] + rest)
  {
    hide Restorable, Apart, NoneAbove, Rescued, RestoreAll, Onward, Known;
    var after := RestoreAll(d, rest).0;
    RestoreOnward(d, rest);
    NotBoth(c, f, d);
    forall p | At(p, f)
      ensures SameAt(after.index, after.head, p)
      ensures after.head == c.head
      ensures SameAt(after.work, after.head, p) <==> !(Untracked(c, p) && p !in c.head && !Rescued(c, [f] + rest, |rest| + 1, p))
    {
      if p in c.head {
        HeadStaysBack(c, f, d, after, p);
      } else {
        OthersGo(c, f, d, after, p);
        if Untracked(c, p) {
          UntrackedAfterCheckout(c, f, d, p);
          LeavesIffRescued(d, rest, p);
          RescuedAfter(c, f, d, rest, |rest|, p);
        }
      }
    }
    assert ([f] + rest)[0] == f && |[f] + rest| == |rest| + 1;
    AgainAt(c, f, rest, after);
  }

  lemma AgainAt(c: Checkout, f: string, rest: seq<string>, after: Checkout)
    requires Lists(c.index, f)
    requires forall p :: At(p, f) ==>
               && SameAt(after.index, after.head, p)
               && (SameAt(after.work, after.head, p) <==> !(Untracked(c, p) && p !in c.head && !Rescued(c, [f] + rest, |rest| + 1, p)))
    ensures HeadAgain(after, f) <==> Awaited(c, [f] + rest)
  {
    hide NoneAbove, Rescued, At;
    assert ([f] + rest)[0] == f && |[f] + rest| == |rest| + 1;
  }

  lemma HeadStaysBack(c: Checkout, f: string, d: Checkout, after: Checkout, h: string)
    requires ChecksOut(c, f, d) && h in c.head && At(h, f) && Onward(d, after)
    ensures after.head == c.head && SameAt(after.index, after.head, h) && SameAt(after.work, after.head, h)
  {
    hide NoneAbove, At;
    assert h in Select(c.head, f);
  }

  /** What HEAD does not have at a checked-out path is out of the index for good, and stays in the working tree
      only if it was untracked there. */
  lemma OthersGo(c: Checkout, f: string, d: Checkout, after: Checkout, p: string)
    requires ChecksOut(c, f, d) && Known(c, f) && p !in c.head && At(p, f) && Onward(d, after)
    ensures after.head == c.head && p !in after.index
    ensures !Untracked(c, p) ==> p !in after.work
  {
    hide NoneAbove, Known;
    GoneFromIndex(c, f, d, p);
    assert p !in d.index;
    if p in c.index {
      assert Hit(p, Select(c.head, f));
      assert p !in d.work;
    }
  }

  lemma GoneFromIndex(c: Checkout, f: string, d: Checkout, p: string)
    requires ChecksOut(c, f, d) && Known(c, f) && p !in c.head && At(p, f)
    ensures p !in d.index
  {
    hide NoneAbove;
    Kinds(c, f);
    if p in c.index {
      if f in c.head {
        assert f in Select(c.head, f) && Clash(p, f);
      } else if TypeChanged(c, f) {
        TypeChangeSettles(c, f, d);
      }
    }
  }

  lemma AgainAfterMove(c: Checkout, f: string, d: Checkout, rest: seq<string>)
    requires Moves(c, f, d) && Known(c, f)
    requires Restorable(d, rest) && Apart(d) && AllKnown(d, rest)
    ensures HeadAgain(RestoreAll(d, rest).0, f) <==> Awaited(c, [f] + rest)
  {
    hide Restorable, Apart, NoneAbove, RestoreAll, Onward, Known, Reset;
    var after := RestoreAll(d, rest).0;
    RestoreOnward(d, rest);
    ResetAfter(c, f, d, rest, f);
    assert ([f] + rest)[0] == f && At(f, f);
    forall p | At(p, f)
      ensures after.head == c.head
      ensures p in c.head ==> (SameAt(after.index, after.head, p) <==> Reset(d, rest, f))
                              && (Reset(d, rest, f) ==> SameAt(after.work, after.head, p))
      ensures p !in c.head ==> SameAt(after.index, after.head, p) && SameAt(after.work, after.head, p)
    {
      if p in c.head {
        BackIffReset(d, rest, f, p);
      } else {
        MovedAwayStays(c, f, d, after, p);
      }
    }
    AgainWhenReset(c, f, d, rest, after);
  }

  lemma MovedAwayStays(c: Checkout, f: string, d: Checkout, after: Checkout, p: string)
    requires Moves(c, f, d) && p !in c.head && At(p, f) && Onward(d, after)
    ensures after.head == c.head && p !in after.index && p !in after.work
  {
    hide NoneAbove, At;
  }

  lemma AgainWhenReset(c: Checkout, f: string, d: Checkout, rest: seq<string>, after: Checkout)
    requires !Lists(c.index, f) && (Reset(c, [f] + rest, f) <==> Reset(d, rest, f)) && after.head == c.head
    requires forall p :: At(p, f) ==>
               && (p in c.head ==> (SameAt(after.index, after.head, p) <==> Reset(d, rest, f))
                                   && (Reset(d, rest, f) ==> SameAt(after.work, after.head, p)))
               && (p !in c.head ==> SameAt(after.index, after.head, p) && SameAt(after.work, after.head, p))
    ensures HeadAgain(after, f) <==> Awaited(c, [f] + rest)
  {
    hide NoneAbove, Reset, At;
    assert ([f] + rest)[0] == f;
    if Lists(c.head, f) {
      var h :| h in c.head && At(h, f);
      assert HeadAgain(after, f) ==> SameAt(after.index, after.head, h);
    }
  }

  // ----- losses -----

  /** A safe step loses nothing for good, so what is lost is lost by the rest. */
  lemma SafeLosesNothing(c: Checkout, f: string, d: Checkout, after: Checkout)
    requires StepsTo(c, f, d) && Onward(d, after)
    ensures NothingLost(c, after) <==> NothingLost(d, after)
  {
    hide NoneAbove, Onward;
    forall p | Untracked(c, p)
      ensures p in d.work && Untracked(d, p) ==> d.work[p] == c.work[p]
      ensures !Untracked(d, p) ==> Survives(c, after, p)
    {
      SafeOrSurvives(c, f, d, after, p);
    }
    forall p | Untracked(d, p) ensures Untracked(c, p) {
      if ChecksOut(c, f, d) {
        UntrackedAfterCheckout(c, f, d, p);
      } else {
        UntrackedAfterMove(c, f, d, p);
      }
    }
    assert forall p :: Untracked(d, p) ==> (Survives(d, after, p) <==> Survives(c, after, p));
  }

  lemma SafeOrSurvives(c: Checkout, f: string, d: Checkout, after: Checkout, p: string)
    requires StepsTo(c, f, d) && Onward(d, after) && Untracked(c, p)
    ensures p in d.work && Untracked(d, p) ==> d.work[p] == c.work[p]
    ensures !Untracked(d, p) ==> Survives(c, after, p)
  {
    hide NoneAbove;
    if ChecksOut(c, f, d) {
      UntrackedAfterCheckout(c, f, d, p);
      if p in c.head && At(p, f) {
        assert !Threatens(c, f, p);
        assert p in Select(c.head, f);
      }
    } else {
      UntrackedAfterMove(c, f, d, p);
      if At(p, f) {
        assert p !in d.work && SameAt(after.quarantine, d.quarantine, p);
      }
    }
  }

  /** What a checkout removes, or writes over with HEAD's content, is lost for good. */
  lemma RemovedIsLost(c: Checkout, p: string, d: Checkout, after: Checkout)
    requires Untracked(c, p) && p !in c.head && p !in d.work && p !in d.quarantine && d.head == c.head && Onward(d, after)
    ensures !NothingLost(c, after)
  {
    hide NoneAbove;
    assert !Survives(c, after, p);
  }

  lemma OverwrittenIsLost(c: Checkout, p: string, d: Checkout, after: Checkout)
    requires Untracked(c, p) && p in c.head && d.head == c.head && c.head[p] != c.work[p]
    requires p in d.index && p in d.work && d.work[p] == d.head[p] && p !in d.quarantine && Onward(d, after)
    ensures !NothingLost(c, after)
  {
    hide NoneAbove;
    assert !Survives(c, after, p);
  }

  /** What the first checkout threatens is lost for good. */
  lemma ThreatenedIsLost(c: Checkout, f: string, p: string, d: Checkout, after: Checkout)
    requires Lists(c.index, f) && Untracked(c, p) && Threatens(c, f, p) && Apart(c)
    requires RestoreOne(c, f) == Some(d) && Onward(d, after)
    ensures !NothingLost(c, after)
  {
    hide NoneAbove, Onward, NothingLost, Clear, Moved, Room, Under, Lists;
    var h :| h in c.head && At(h, f) && (Clash(h, p) || (h == p && c.head[h] != c.work[p]));
    assert h in Select(c.head, f) && p !in c.quarantine;
    if Clash(h, p) {
      assert Clash(p, h) && Hit(p, Select(c.head, f));
      if p in c.head {
        NoClash(c.head, h, p);
      }
      RemovedIsLost(c, p, d, after);
    } else {
      OverwrittenIsLost(c, p, d, after);
    }
  }

  lemma UnsafeStepSpoils(c: Checkout, files: seq<string>)
    requires files != [] && !StepSafe(c, files[0]) && Apart(c)
    ensures !Restored(c, files)
  {
    hide NoneAbove, Onward, NothingLost, HeadAgain, Apart, Threatens, Under;
    var f := files[0];
    if RestoreOne(c, f).Some? {
      var d := RestoreOne(c, f).value;
      RestoreOnward(d, files[1..]);
      if Lists(c.index, f) {
        var p :| p in c.work && Untracked(c, p) && Threatens(c, f, p);
        ThreatenedIsLost(c, f, p, d, RestoreAll(d, files[1..]).0);
      }
    }
  }

  lemma RestoredTail(c: Checkout, files: seq<string>, d: Checkout)
    requires files != [] && StepsTo(c, files[0], d) && RestoreOne(c, files[0]) == Some(d)
    ensures Restored(c, files) <==> Restored(d, files[1..]) && HeadAgain(RestoreAll(d, files[1..]).0, files[0])
  {
    hide RestoreOne, Onward, NothingLost, HeadAgain, StepsTo;
    var f, rest := files[0], files[1..];
    var after := RestoreAll(d, rest).0;
    RestoreOnward(d, rest);
    SafeLosesNothing(c, f, d, after);
    assert forall i :: 0 <= i < |rest| ==> rest[i] == files[i + 1];
    if (forall i :: 0 <= i < |rest| ==> HeadAgain(after, rest[i])) && HeadAgain(after, f) {
      forall i | 0 <= i < |files| ensures HeadAgain(after, files[i]) {
        assert i > 0 ==> files[i] == rest[i - 1];
      }
    }
  }

  // ----- main results -----

  /** Of any list of paths status may report, restored into a quarantine directory apart from what is
      untracked: the restore does what it should exactly when the list is restorable. */
  lemma {:induction false} RestoreIffRestorable(c: Checkout, files: seq<string>)
    requires Apart(c) && AllKnown(c, files)
    ensures Restorable(c, files) <==> Restored(c, files)
    decreases |files|
  {
    hide RestoreOne, RestorableAt, Restored, Known, Apart, StepsTo, StepSafe, Awaited, HeadAgain;
    if files == [] {
      NoneRestored(c);
    } else if StepSafe(c, files[0]) {
      SafeStep(c, files[0]);
      var d := RestoreOne(c, files[0]).value;
      StepKeepsApart(c, files[0], d);
      forall i | 0 <= i < |files[1..]| ensures Known(d, files[1..][i]) {
        StepKeepsKnown(c, files[0], d, files[i + 1]);
      }
      RestoreIffRestorable(d, files[1..]);
      RestoredTail(c, files, d);
      if Awaited(c, files) {
        RestorableAfter(c, files, d);
      } else {
        FirstIff(c, files);
        assert !RestorableAt(c, files, 0);
      }
      if Restorable(d, files[1..]) {
        HeadAgainIffAwaited(c, files, d);
      }
    } else {
      UnsafeStepSpoils(c, files);
      FirstIff(c, files);
      assert !RestorableAt(c, files, 0);
    }
  }

  lemma NoneRestored(c: Checkout)
    ensures Restored(c, [])
  {
  }

  /** A checkout or move in one step loses an untracked content exactly when it checks out something of
      HEAD at, above or below it. */
  lemma StepLosesIff(c: Checkout, f: string, p: string)
    requires Untracked(c, p) && Apart(c)
    ensures RestoreOne(c, f).Some? ==>
              (!Survives(c, RestoreOne(c, f).value, p) <==>
               Lists(c.index, f) && exists h :: h in c.head && At(h, f) && (Clash(h, p) || (h == p && c.head[h] != c.work[p])))
  {
    assert p !in c.quarantine;
    var patch := Select(c.head, f);
    if Lists(c.index, f) && exists h :: h in c.head && At(h, f) && Clash(h, p) {
      var h :| h in c.head && At(h, f) && Clash(h, p);
      assert h in patch && Hit(p, patch);
      if p in c.head {
        NoClash(c.head, h, p);
      }
    }
  }

  /** Nothing of HEAD that a listed path would check out is at, above or below this path. */
  predicate Spares(head: Tree, f: string, p: string) {
    forall h :: h in head && At(h, f) ==> h != p && !Clash(h, p)
  }

  predicate Unthreatened(c: Checkout, files: seq<string>, p: string) {
    forall i :: 0 <= i < |files| ==> Spares(c.head, files[i], p)
  }

  lemma UnthreatenedTail(c: Checkout, files: seq<string>, p: string)
    requires Unthreatened(c, files, p) && files != [] && RestoreOne(c, files[0]).Some?
    ensures Spares(c.head, files[0], p) && Unthreatened(RestoreOne(c, files[0]).value, files[1..], p)
  {
    hide Spares, Lists, Room;
    assert forall i :: 0 <= i < |files[1..]| ==> files[1..][i] == files[i + 1];
  }

  /** A path spared by a checkout is as it was. */
  lemma SparedByPatch(t: Tree, head: Tree, f: string, p: string)
    requires Spares(head, f, p)
    ensures SameAt(Overlay(t, Select(head, f)), t, p)
  {
    hide NoneAbove;
  }

  /** One step leaves spared untracked content in place or moves it. */
  lemma SparedStep(c: Checkout, f: string, p: string)
    requires Spares(c.head, f, p) && RestoreOne(c, f).Some?
    ensures var d := RestoreOne(c, f).value;
            && SameAt(d.index, c.index, p)
            && (p in d.work ==> p in c.work && d.work[p] == c.work[p])
            && (p in c.work && p !in d.work ==> p in d.quarantine && d.quarantine[p] == c.work[p])
            && (p !in c.work ==> SameAt(d.quarantine, c.quarantine, p))
            && (!At(p, f) ==> SameAt(d.work, c.work, p) && SameAt(d.quarantine, c.quarantine, p))
  {
    hide NoneAbove, Lists, Room, Spares, At, Select, Overlay;
    SparedByPatch(c.index, c.head, f, p);
    SparedByPatch(c.work, c.head, f, p);
  }

  /** Whether or not a restore succeeds, untracked content it does not threaten survives. */
  lemma {:induction false} UntrackedContentSurvives(c: Checkout, files: seq<string>, p: string)
    requires Untracked(c, p) && Unthreatened(c, files, p)
    ensures Survives(c, RestoreAll(c, files).0, p)
    decreases |files|
  {
    hide RestoreOne, Unthreatened;
    if files != [] && RestoreOne(c, files[0]).Some? {
      var d := RestoreOne(c, files[0]).value;
      UnthreatenedTail(c, files, p);
      SparedStep(c, files[0], p);
      if p in d.work {
        UntrackedContentSurvives(d, files[1..], p);
      } else {
        QuarantineKept(d, files[1..], p);
      }
    }
  }

  lemma {:induction false} QuarantineKept(c: Checkout, files: seq<string>, p: string)
    requires p in c.quarantine && p !in c.work && Unthreatened(c, files, p)
    ensures p in RestoreAll(c, files).0.quarantine && RestoreAll(c, files).0.quarantine[p] == c.quarantine[p]
    decreases |files|
  {
    hide RestoreOne, Unthreatened;
    if files != [] && RestoreOne(c, files[0]).Some? {
      UnthreatenedTail(c, files, p);
      SparedStep(c, files[0], p);
      QuarantineKept(RestoreOne(c, files[0]).value, files[1..], p);
    }
  }

  /** No listed path names it, and nothing of HEAD the list checks out is above or below it. */
  predicate Aside(c: Checkout, files: seq<string>, p: string) {
    && (forall i :: 0 <= i < |files| ==> !At(p, files[i]))
    && Unthreatened(c, files, p)
  }

  lemma HeadStays(c: Checkout, f: string)
    requires RestoreOne(c, f).Some?
    ensures RestoreOne(c, f).value.head == c.head
  {
  }

  /** A restore leaves everything aside of its list alone. */
  lemma {:induction false} RestoreFrame(c: Checkout, files: seq<string>, p: string)
    requires Aside(c, files, p)
    ensures var after := RestoreAll(c, files).0;
            after.head == c.head && SameAt(after.work, c.work, p) && SameAt(after.index, c.index, p)
            && SameAt(after.quarantine, c.quarantine, p)
    decreases |files|
  {
    hide RestoreOne, Unthreatened, At;
    if files != [] && RestoreOne(c, files[0]).Some? {
      UnthreatenedTail(c, files, p);
      SparedStep(c, files[0], p);
      HeadStays(c, files[0]);
      assert forall i :: 0 <= i < |files[1..]| ==> files[1..][i] == files[i + 1];
      RestoreFrame(RestoreOne(c, files[0]).value, files[1..], p);
    }
  }

  // ----- concrete inputs -----

  /** A staged new file cannot be restored: the restore fails and the file stays in the working tree. */
  lemma StagedAddIsNotRestored()
    ensures var c := Checkout(map[], map["a.ts" := "x"], map["a.ts" := "x"], map[]);
            RestoreAll(c, ["a.ts"]) == (c, false)
  {
    assert At("a.ts", "a.ts");
  }

  /** A tracked directory replaced by an untracked file: the restore of both reports success, and the
      file's content is nowhere. */
  lemma CoveringFileIsLost()
    ensures var head: Tree := map["d/x.ts" := "x"];
            var c := Checkout(head, head, map["d" := "u"], map[]);
            && RestoreAll(c, ["d/x.ts", "d"]) == (Checkout(head, head, head, map[]), true)
            && !Restorable(c, ["d/x.ts", "d"])
  {
    var head: Tree := map["d/x.ts" := "x"];
    var c := Checkout(head, head, map["d" := "u"], map[]);
    var done := Checkout(head, head, head, map[]);
    assert Under("d/x.ts", "d") && At("d/x.ts", "d/x.ts");
    assert Select(head, "d/x.ts") == head && Select(head, "d") == head;
    assert Hit("d", head);
    assert Overlay(c.work, head) == head && Overlay(head, head) == head;
    assert RestoreOne(c, "d/x.ts") == Some(done);
    assert RestoreOne(done, "d") == Some(done);
    var files := ["d/x.ts", "d"];
    assert files[1..] == ["d"] && files[1..][1..] == [];
    assert Untracked(c, "d") && Clash("d/x.ts", "d") && Threatens(c, "d/x.ts", "d");
    FirstIff(c, files);
    assert !RestorableAt(c, files, 0);
  }

  const A_DIRECTORY: Tree := map["f/x" := "1"]
  const TYPE_CHANGE := Checkout(A_DIRECTORY, map["f" := "2"], map["f" := "2"], map[])
  const AS_HEAD := Checkout(A_DIRECTORY, A_DIRECTORY, A_DIRECTORY, map[])

  lemma TypeChangeSteps()
    ensures RestoreOne(TYPE_CHANGE, "f") == Some(AS_HEAD) && RestoreOne(AS_HEAD, "f/x") == Some(AS_HEAD)
  {
    assert Under("f/x", "f") && At("f", "f") && At("f/x", "f/x");
    assert Select(A_DIRECTORY, "f") == A_DIRECTORY && Select(A_DIRECTORY, "f/x") == A_DIRECTORY;
    assert Hit("f", A_DIRECTORY);
    assert Overlay(TYPE_CHANGE.work, A_DIRECTORY) == A_DIRECTORY && Overlay(A_DIRECTORY, A_DIRECTORY) == A_DIRECTORY;
  }

  /** A staged file in the place of a tracked directory: the restore brings the directory back, and the path
      below it is tracked by then. */
  lemma TypeChangeIsRestored()
    ensures RestoreAll(TYPE_CHANGE, ["f", "f/x"]) == (AS_HEAD, true) && Restorable(TYPE_CHANGE, ["f", "f/x"])
  {
    hide RestoreOne, Restorable, Restored;
    TypeChangeSteps();
    assert ["f", "f/x"][1..] == ["f/x"] && ["f/x"][1..] == [];
    RestoreIffRestorable(TYPE_CHANGE, ["f", "f/x"]);
    assert Restored(TYPE_CHANGE, ["f", "f/x"]) by {
      AllHead();
    }
  }

  lemma AllHead()
    requires RestoreAll(TYPE_CHANGE, ["f", "f/x"]) == (AS_HEAD, true)
    ensures Restored(TYPE_CHANGE, ["f", "f/x"])
  {
    hide RestoreAll;
  }

  const A_TRACKED: Tree := map["a" := "x"]
  const A_REPLACED := Checkout(A_TRACKED, A_TRACKED, map["a/b.ts" := "u"], map[])

  lemma AbovePaths()
    ensures Under("a/b.ts", "a") && At("a", "a") && At("a/b.ts", "a/b.ts") && !At("a", "a/b.ts")
    ensures Select(A_TRACKED, "a") == A_TRACKED && Select(A_TRACKED, "a/b.ts") == map[]
    ensures Overlay(A_TRACKED, A_TRACKED) == A_TRACKED
  {
  }

  lemma CheckedOutFirst()
    ensures RestoreOne(A_REPLACED, "a") == Some(Checkout(A_TRACKED, A_TRACKED, A_TRACKED, map[]))
    ensures RestoreOne(Checkout(A_TRACKED, A_TRACKED, A_TRACKED, map[]), "a/b.ts") == None
  {
    AbovePaths();
    assert Hit("a/b.ts", A_TRACKED) && Overlay(A_REPLACED.work, A_TRACKED) == A_TRACKED;
  }

  lemma MovedFirst()
    ensures RestoreOne(A_REPLACED, "a/b.ts") == Some(Checkout(A_TRACKED, A_TRACKED, map[], map["a/b.ts" := "u"]))
    ensures RestoreOne(Checkout(A_TRACKED, A_TRACKED, map[], map["a/b.ts" := "u"]), "a")
         == Some(Checkout(A_TRACKED, A_TRACKED, A_TRACKED, map["a/b.ts" := "u"]))
  {
    AbovePaths();
    assert "a/b.ts" in Select(A_REPLACED.work, "a/b.ts");
    assert Clear(A_REPLACED.work, "a/b.ts") == map[];
    assert Moved(map[], A_REPLACED.work, "a/b.ts") == map["a/b.ts" := "u"];
    assert Overlay(map[], A_TRACKED) == A_TRACKED;
  }

  /** A tracked file replaced by an untracked directory: as status lists them, tracked paths first, the
      restore fails after the directory's content is gone; the other way round it loses nothing. */
  lemma CoveredDirectoryIsLost()
    ensures RestoreAll(A_REPLACED, ["a", "a/b.ts"]) == (Checkout(A_TRACKED, A_TRACKED, A_TRACKED, map[]), false)
    ensures RestoreAll(A_REPLACED, ["a/b.ts", "a"])
         == (Checkout(A_TRACKED, A_TRACKED, A_TRACKED, map["a/b.ts" := "u"]), true)
  {
    hide RestoreOne;
    CheckedOutFirst();
    MovedFirst();
    assert ["a", "a/b.ts"][1..] == ["a/b.ts"] && ["a/b.ts", "a"][1..] == ["a"] && ["a"][1..] == [];
  }
}
