/** Which lists of paths a restore to HEAD puts back without losing anything, told before the call, and
    how that telling passes from one step to the next (packages/core/src/commit-gate/git.ts). */
module RestoreSteps {
  import opened Paths
  import opened Repository

  // ----- what a restore should do -----

  predicate Untracked(c: Checkout, p: string) {
    p in c.work && p !in c.index
  }

  /** Content git does not track is left in place or moved to quarantine. */
  ghost predicate Survives(c: Checkout, after: Checkout, p: string)
    requires p in c.work
  {
    (p in after.work && after.work[p] == c.work[p]) || (p in after.quarantine && after.quarantine[p] == c.work[p])
  }

  ghost predicate NothingLost(c: Checkout, after: Checkout) {
    forall p :: Untracked(c, p) ==> Survives(c, after, p)
  }

  /** Index and working tree have HEAD's files at and below the path, and no others. */
  ghost predicate HeadAgain(d: Checkout, f: string) {
    AgreesAt(d.work, d.head, f) && AgreesAt(d.index, d.head, f)
  }

  /** The restore went through, every listed path is HEAD's again, and nothing is lost. */
  ghost predicate Restored(c: Checkout, files: seq<string>) {
    var (after, ok) := RestoreAll(c, files);
    ok && (forall i :: 0 <= i < |files| ==> HeadAgain(after, files[i])) && NothingLost(c, after)
  }

  // ----- the condition, checkable before the call -----

  /** A staged file in the place of a directory of HEAD. */
  predicate TypeChanged(c: Checkout, g: string) {
    g in c.index && g !in c.head && Lists(c.head, g)
  }

  /** A listed type change stands above the path: its checkout brings back what HEAD has there. */
  predicate Reset(c: Checkout, files: seq<string>, f: string) {
    exists i :: 0 <= i < |files| && TypeChanged(c, files[i]) && Under(f, files[i])
  }

  /** Git tracks something at or below the path when its turn comes. */
  predicate Tracked(c: Checkout, before: seq<string>, f: string) {
    Lists(c.index, f) || (Lists(c.head, f) && Reset(c, before, f))
  }

  /** One of the first `n` listed paths names the file and is moved away, not checked out. */
  predicate Rescued(c: Checkout, files: seq<string>, n: nat, p: string)
    requires n <= |files|
  {
    exists j :: 0 <= j < n && At(p, files[j]) && !Tracked(c, files[..j], files[j])
  }

  /** Checking the path out writes something else of HEAD at, above or below the file. */
  predicate Threatens(c: Checkout, f: string, p: string)
    requires p in c.work
  {
    exists h :: h in c.head && At(h, f) && (Clash(h, p) || (h == p && c.head[h] != c.work[p]))
  }

  /** The path at place `i`. Tracked from the start: HEAD has it or something below it, what it threatens is
      moved away before, and what else is untracked at or below it is moved away sometime. Tracked by an
      earlier checkout: nothing more. Untracked: it is there, untouched by earlier moves, with nothing
      below it in quarantine, and what HEAD has there is brought back. */
  predicate RestorableAt(c: Checkout, files: seq<string>, i: nat)
    requires i < |files|
  {
    var f := files[i];
    if Lists(c.index, f) then
      && Lists(c.head, f)
      && (forall p :: p in c.work && Untracked(c, p) && Threatens(c, f, p) ==> Rescued(c, files, i, p))
      && (forall p :: p in c.work && Untracked(c, p) && At(p, f) && p !in c.head ==> Rescued(c, files, |files|, p))
    else if Lists(c.head, f) && Reset(c, files[..i], f) then true
    else
      && Lists(c.work, f)
      && (forall p :: p in c.work && At(p, f) ==> !Rescued(c, files, i, p))
      && (forall q :: q in c.quarantine ==> !Under(q, f))
      && (Lists(c.head, f) ==> Reset(c, files, f))
  }

  predicate Restorable(c: Checkout, files: seq<string>) {
    forall i :: 0 <= i < |files| ==> RestorableAt(c, files, i)
  }

  // ----- what the callers guarantee -----

  /** The quarantine directory has nothing at, above or below what is untracked; a fresh one has nothing. */
  ghost predicate Apart(c: Checkout) {
    forall p, q :: p in c.quarantine && Untracked(c, q) ==> p != q && !Clash(p, q)
  }

  /** Index and HEAD have the same files at and below the path. */
  ghost predicate SameFiles(c: Checkout, f: string) {
    forall p :: At(p, f) ==> (p in c.index <==> p in c.head)
  }

  /** A path git status may report is a file of HEAD, the index or the working tree; of any other, nothing is
      staged or nothing is there. */
  ghost predicate Known(c: Checkout, f: string) {
    f in c.head || f in c.index || f in c.work || SameFiles(c, f) || (!Lists(c.index, f) && !Lists(c.work, f))
  }

  // ----- the first path -----

  /** What the first path needs for its own step. */
  predicate StepSafe(c: Checkout, f: string) {
    if Lists(c.index, f) then
      Lists(c.head, f) && forall p :: p in c.work && Untracked(c, p) ==> !Threatens(c, f, p)
    else
      Lists(c.work, f) && forall q :: q in c.quarantine ==> !Under(q, f)
  }

  /** What it needs from the rest of the list. */
  predicate Awaited(c: Checkout, files: seq<string>)
    requires files != []
  {
    var f := files[0];
    if Lists(c.index, f) then
      forall p :: p in c.work && Untracked(c, p) && At(p, f) && p !in c.head ==> Rescued(c, files, |files|, p)
    else
      Lists(c.head, f) ==> Reset(c, files, f)
  }

  lemma FirstIff(c: Checkout, files: seq<string>)
    requires files != []
    ensures RestorableAt(c, files, 0) <==> StepSafe(c, files[0]) && Awaited(c, files)
  {
    hide NoneAbove;
    assert files[..0] == [];
    assert forall p :: !Rescued(c, files, 0, p);
  }

  // ----- a safe checkout -----

  /** The step at a tracked path. */
  ghost predicate ChecksOut(c: Checkout, f: string, d: Checkout) {
    && Lists(c.index, f) && StepSafe(c, f)
    && d == c.(index := Overlay(c.index, Select(c.head, f)), work := Overlay(c.work, Select(c.head, f)))
  }

  /** The step at an untracked path. */
  ghost predicate Moves(c: Checkout, f: string, d: Checkout) {
    && !Lists(c.index, f) && StepSafe(c, f) && Room(c.quarantine, c.work, f)
    && d == c.(work := Clear(c.work, f), quarantine := Moved(c.quarantine, c.work, f))
  }

  lemma SafeCheckout(c: Checkout, f: string)
    requires StepSafe(c, f) && Lists(c.index, f)
    ensures RestoreOne(c, f).Some? && ChecksOut(c, f, RestoreOne(c, f).value)
  {
    hide NoneAbove, Overlay;
    var h :| h in c.head && At(h, f);
    assert h in Select(c.head, f);
  }

  lemma RoomToMove(c: Checkout, f: string)
    requires StepSafe(c, f) && !Lists(c.index, f) && Apart(c)
    ensures Room(c.quarantine, c.work, f)
  {
    hide NoneAbove;
    var p :| p in c.work && At(p, f);
    assert Untracked(c, p);
    forall q | q in c.quarantine ensures !Clash(q, f) && (q == f ==> f in c.work) {
      assert !Clash(q, p) && q != p;
      if Under(f, q) && p != f {
        UnderTransitive(p, f, q);
      }
    }
  }

  lemma SafeMove(c: Checkout, f: string)
    requires StepSafe(c, f) && !Lists(c.index, f) && Apart(c)
    ensures RestoreOne(c, f).Some? && Moves(c, f, RestoreOne(c, f).value)
  {
    hide NoneAbove, Moved, Clear;
    RoomToMove(c, f);
    var p :| p in c.work && At(p, f);
    assert p in Select(c.work, f);
  }

  ghost predicate StepsTo(c: Checkout, f: string, d: Checkout) {
    ChecksOut(c, f, d) || Moves(c, f, d)
  }

  lemma SafeStep(c: Checkout, f: string)
    requires StepSafe(c, f) && Apart(c)
    ensures RestoreOne(c, f).Some? && StepsTo(c, f, RestoreOne(c, f).value)
  {
    if Lists(c.index, f) {
      SafeCheckout(c, f);
    } else {
      SafeMove(c, f);
    }
  }

  /** What a safe checkout can be of: a file of HEAD, a type change, or paths with nothing staged. */
  lemma Kinds(c: Checkout, f: string)
    requires StepSafe(c, f) && Lists(c.index, f) && Known(c, f)
    ensures f in c.head || TypeChanged(c, f) || SameFiles(c, f)
  {
    hide NoneAbove, Under;
    var h :| h in c.head && At(h, f);
    assert f !in c.head ==> Clash(h, f);
    assert f in c.work && f !in c.head ==> Threatens(c, f, f);
  }

  /** A file of HEAD or the index is above or below what a checkout writes only if it is a type change that is
      checked out, or staged below a file of HEAD that is. */
  lemma HitInIndex(c: Checkout, f: string, p: string)
    requires StepSafe(c, f) && Lists(c.index, f) && Known(c, f)
    requires p in c.index && Hit(p, Select(c.head, f))
    ensures p !in c.head && ((p == f && TypeChanged(c, f)) || (f in c.head && Under(p, f)))
  {
    hide NoneAbove;
    Kinds(c, f);
    var h :| h in Select(c.head, f) && Clash(p, h);
    if p in c.head {
      NoClash(c.head, p, h);
    }
    if f in c.head {
      if h != f {
        NoClash(c.head, h, f);
      }
      if Under(f, p) {
        var q :| q in c.index && At(q, f);
        if q != f {
          UnderTransitive(q, f, p);
        }
        NoClash(c.index, q, p);
      }
    } else if TypeChanged(c, f) {
      HitNearTypeChange(c, f, p, h);
    } else {
      assert h in c.index;
      NoClash(c.index, p, h);
    }
  }

  lemma HitNearTypeChange(c: Checkout, f: string, p: string, h: string)
    requires f in c.index && f !in c.head && p in c.index && Under(h, f) && Clash(p, h)
    ensures p == f
  {
    if p != f {
      NoClash(c.index, p, f);
      if Under(h, p) {
        UnderComparable(h, p, f);
      } else {
        UnderTransitive(p, h, f);
      }
    }
  }

  /** A path loses all it had in the index only to a file of HEAD above it, and then nothing is left of it. */
  lemma LostFromIndex(c: Checkout, f: string, d: Checkout, e: string)
    requires ChecksOut(c, f, d) && Known(c, f) && Lists(c.index, e) && !Lists(d.index, e)
    ensures f in c.head && Under(e, f) && !Lists(c.head, e) && !Lists(d.work, e)
  {
    hide NoneAbove;
    var p :| p in c.index && At(p, e);
    HitInIndex(c, f, p);
    if f in c.head && Under(p, f) {
      assert f in Select(c.head, f) && f in d.index;
      if p != e {
        UnderComparable(p, e, f);
      }
      BelowOverwritten(c, f, d, e);
    } else {
      var h :| h in c.head && At(h, f);
      assert h in Select(c.head, f) && h in d.index && Under(h, f);
      if p != e {
        UnderTransitive(h, f, e);
      }
    }
  }

  lemma BelowOverwritten(c: Checkout, f: string, d: Checkout, e: string)
    requires ChecksOut(c, f, d) && f in c.head && Under(e, f)
    ensures !Lists(c.head, e) && !Lists(d.work, e)
  {
    hide NoneAbove;
    assert f in Select(c.head, f) && f in d.work;
    forall p | At(p, e) ensures p !in c.head && p !in d.work {
      if p != e {
        UnderTransitive(p, e, f);
      }
      if p in c.head {
        NoClash(c.head, p, f);
      }
      if p in d.work {
        NoClash(d.work, p, f);
      }
    }
  }

  /** A path gains a place in the index only below a type change that is checked out. */
  lemma GainedInIndex(c: Checkout, f: string, d: Checkout, e: string)
    requires ChecksOut(c, f, d) && Known(c, f)
    ensures !Lists(c.index, e) && Lists(d.index, e) ==> TypeChanged(c, f) && Under(e, f) && Lists(c.head, e)
    ensures TypeChanged(c, f) && Under(e, f) && Lists(c.head, e) ==> !Lists(c.index, e) && Lists(d.index, e)
  {
    hide NoneAbove;
    if !Lists(c.index, e) && Lists(d.index, e) {
      var h :| h in d.index && At(h, e);
      assert h in Select(c.head, f);
      Kinds(c, f);
      GainNear(c, f, e, h);
    }
    if TypeChanged(c, f) && Under(e, f) && Lists(c.head, e) {
      var h :| h in c.head && At(h, e);
      if h != e {
        UnderTransitive(h, e, f);
      }
      assert h in Select(c.head, f) && h in d.index;
      forall p | At(p, e) ensures p !in c.index {
        if p != e {
          UnderTransitive(p, e, f);
        }
        if p in c.index {
          NoClash(c.index, p, f);
        }
      }
    }
  }

  lemma GainNear(c: Checkout, f: string, e: string, h: string)
    requires f in c.head || TypeChanged(c, f) || SameFiles(c, f)
    requires Lists(c.index, f) && !Lists(c.index, e) && h in c.head && At(h, f) && At(h, e)
    ensures TypeChanged(c, f) && Under(e, f)
  {
    hide NoneAbove;
    var q :| q in c.index && At(q, f);
    if h != f && h != e {
      UnderComparable(h, f, e);
    }
    if f == e || Under(f, e) {
      if q != f && f != e {
        UnderTransitive(q, f, e);
      }
    } else {
      assert Under(e, f) && h != f;
      if f in c.head {
        NoClash(c.head, h, f);
      }
      assert SameFiles(c, f) ==> h in c.index;
    }
  }

  // ----- what a step keeps of the telling -----

  /** After a checkout its own type change is none any more; all others are as they were. */
  lemma TypeChangesAfter(c: Checkout, f: string, d: Checkout, g: string)
    requires StepsTo(c, f, d) && Known(c, f)
    ensures TypeChanged(d, g) <==> TypeChanged(c, g) && g != f
  {
    hide NoneAbove;
    if ChecksOut(c, f, d) {
      if TypeChanged(c, g) && g !in d.index {
        HitInIndex(c, f, g);
        if f in c.head && Under(g, f) {
          BelowOverwritten(c, f, d, g);
        }
      }
      if TypeChanged(c, f) && g == f {
        var h :| h in c.head && At(h, f);
        assert h in Select(c.head, f) && Clash(f, h) && Hit(f, Select(c.head, f));
      }
    } else {
      assert At(f, f);
    }
  }

  lemma ResetAfter(c: Checkout, f: string, d: Checkout, rest: seq<string>, e: string)
    requires StepsTo(c, f, d) && Known(c, f)
    ensures Reset(c, [f] + rest, e) <==> Reset(d, rest, e) || (TypeChanged(c, f) && Under(e, f))
  {
    hide NoneAbove, Under, ChecksOut, Moves;
    var files := [f] + rest;
    forall g ensures TypeChanged(d, g) <==> TypeChanged(c, g) && g != f {
      TypeChangesAfter(c, f, d, g);
    }
    if Reset(c, files, e) {
      var i :| 0 <= i < |files| && TypeChanged(c, files[i]) && Under(e, files[i]);
      if files[i] != f {
        assert rest[i - 1] == files[i];
      }
    }
    if Reset(d, rest, e) {
      var i :| 0 <= i < |rest| && TypeChanged(d, rest[i]) && Under(e, rest[i]);
      assert files[i + 1] == rest[i];
    }
    if TypeChanged(c, f) && Under(e, f) {
      assert files[0] == f;
    }
  }

  /** Whether a later path is tracked when its turn comes is told alike before and after the step, unless the
      checkout left nothing of it. */
  lemma TrackedAfter(c: Checkout, f: string, d: Checkout, before: seq<string>, e: string)
    requires StepsTo(c, f, d) && Known(c, f)
    requires !(Lists(c.index, e) && !Lists(d.index, e))
    ensures Tracked(c, [f] + before, e) <==> Tracked(d, before, e)
  {
    hide NoneAbove, Under;
    ResetAfter(c, f, d, before, e);
    if ChecksOut(c, f, d) {
      GainedInIndex(c, f, d, e);
    } else {
      assert At(f, f);
    }
  }

  /** Who is rescued: the step's own move, and whom the rest of the list rescues. */
  lemma RescuedAfter(c: Checkout, f: string, d: Checkout, rest: seq<string>, n: nat, p: string)
    requires StepsTo(c, f, d) && Known(c, f) && n <= |rest| && Untracked(c, p)
    ensures Rescued(c, [f] + rest, n + 1, p) <==> (Moves(c, f, d) && At(p, f)) || Rescued(d, rest, n, p)
  {
    hide NoneAbove, ChecksOut, Moves, Tracked;
    var files := [f] + rest;
    FirstTracked(c, f, d);
    forall j | 0 <= j < n && At(p, rest[j]) ensures Tracked(c, files[..j + 1], files[j + 1]) <==> Tracked(d, rest[..j], rest[j]) {
      assert files[..j + 1] == [f] + rest[..j] && files[j + 1] == rest[j];
      UntrackedNotWiped(c, f, d, rest[j], p);
      TrackedAfter(c, f, d, rest[..j], rest[j]);
    }
    assert files[..0] == [] && files[0] == f;
    if Rescued(c, files, n + 1, p) {
      var j :| 0 <= j < n + 1 && At(p, files[j]) && !Tracked(c, files[..j], files[j]);
      if j > 0 {
        assert At(p, rest[j - 1]) && !Tracked(d, rest[..j - 1], rest[j - 1]);
      }
    }
    if Rescued(d, rest, n, p) {
      var j :| 0 <= j < n && At(p, rest[j]) && !Tracked(d, rest[..j], rest[j]);
      assert !Tracked(c, files[..j + 1], files[j + 1]) && At(p, files[j + 1]);
    }
  }

  lemma FirstTracked(c: Checkout, f: string, d: Checkout)
    requires StepsTo(c, f, d)
    ensures Tracked(c, [], f) <==> !Moves(c, f, d)
  {
    hide NoneAbove, Under;
  }

  /** Where something untracked is, the index is not emptied. */
  lemma UntrackedNotWiped(c: Checkout, f: string, d: Checkout, e: string, p: string)
    requires StepsTo(c, f, d) && Known(c, f) && Untracked(c, p) && At(p, e)
    ensures !(Lists(c.index, e) && !Lists(d.index, e))
  {
    hide NoneAbove;
    if ChecksOut(c, f, d) && Lists(c.index, e) && !Lists(d.index, e) {
      LostFromIndex(c, f, d, e);
      if p != e {
        UnderTransitive(p, e, f);
      }
      assert false;
    }
  }

  /** A checkout leaves untracked content alone; HEAD's own is tracked from then on. */
  lemma UntrackedAfterCheckout(c: Checkout, f: string, d: Checkout, p: string)
    requires ChecksOut(c, f, d)
    ensures Untracked(d, p) <==> Untracked(c, p) && !(p in c.head && At(p, f))
    ensures Untracked(c, p) ==> p in d.work && d.work[p] == c.work[p]
  {
    hide NoneAbove;
    var patch := Select(c.head, f);
    assert Untracked(c, p) ==> !Threatens(c, f, p);
    assert p in c.index && p !in d.index ==> Hit(p, patch);
  }

  lemma UntrackedAfterMove(c: Checkout, f: string, d: Checkout, p: string)
    requires Moves(c, f, d)
    ensures Untracked(d, p) <==> Untracked(c, p) && !At(p, f)
    ensures Untracked(d, p) ==> d.work[p] == c.work[p]
  {
    hide NoneAbove, Under;
  }

  lemma StepKeepsApart(c: Checkout, f: string, d: Checkout)
    requires StepsTo(c, f, d) && Apart(c)
    ensures Apart(d)
  {
    hide NoneAbove, Overlay, Select, Clear, Lists, Room, Threatens;
    forall p, q | p in d.quarantine && Untracked(d, q) ensures p != q && !Clash(p, q) {
      if ChecksOut(c, f, d) {
        UntrackedAfterCheckout(c, f, d, q);
      } else {
        UntrackedAfterMove(c, f, d, q);
        if p in c.work && At(p, f) {
          NoClash(c.work, p, q);
        }
      }
    }
  }

  // ----- what a step keeps of what callers guarantee -----

  lemma CheckoutKeepsKnown(c: Checkout, f: string, d: Checkout, e: string)
    requires ChecksOut(c, f, d) && Known(c, f) && Known(c, e)
    ensures Known(d, e)
  {
    hide NoneAbove;
    Kinds(c, f);
    if e in c.index && e !in d.index && e !in c.head {
      HitInIndex(c, f, e);
      if e == f {
        TypeChangeSettles(c, f, d);
      } else {
        BelowOverwritten(c, f, d, e);
        NothingBelowFile(d, f, e);
      }
    } else if e in c.work && e !in d.work && e !in c.head && e !in c.index {
      UntrackedAfterCheckout(c, f, d, e);
    } else if e !in c.head && e !in c.index && e !in c.work {
      UnnamedStaysKnown(c, f, d, e);
    }
  }

  lemma NothingBelowFile(d: Checkout, f: string, e: string)
    requires f in d.index && Under(e, f)
    ensures !Lists(d.index, e)
  {
    forall p | At(p, e) ensures p !in d.index {
      if p != e {
        UnderTransitive(p, e, f);
      }
      if p in d.index {
        NoClash(d.index, p, f);
      }
    }
  }

  lemma TypeChangeSettles(c: Checkout, f: string, d: Checkout)
    requires ChecksOut(c, f, d) && TypeChanged(c, f)
    ensures SameFiles(d, f)
  {
    hide NoneAbove;
    forall p | At(p, f) ensures p in d.index <==> p in d.head {
      if p in d.index && p !in c.head {
        assert p in c.index;
        var h :| h in c.head && At(h, f);
        assert h in Select(c.head, f) && Clash(f, h);
        if p != f {
          NoClash(c.index, p, f);
        }
      }
      if p in c.head {
        assert p in Select(c.head, f);
      }
    }
  }

  lemma UnnamedStaysKnown(c: Checkout, f: string, d: Checkout, e: string)
    requires ChecksOut(c, f, d) && Known(c, f) && Known(c, e)
    requires e !in c.head && e !in c.index && e !in c.work
    ensures Known(d, e)
  {
    hide NoneAbove;
    if SameFiles(c, e) {
      SameFilesStay(c, f, d, e);
    } else {
      GainedInIndex(c, f, d, e);
      if Lists(d.index, e) {
        BelowTypeChange(c, f, d, e);
      } else {
        forall p | At(p, e) ensures p !in d.work {
          assert p in Select(c.head, f) ==> p in d.index;
        }
      }
    }
  }

  lemma BelowTypeChange(c: Checkout, f: string, d: Checkout, e: string)
    requires ChecksOut(c, f, d) && TypeChanged(c, f) && Under(e, f)
    ensures SameFiles(d, e)
  {
    hide NoneAbove;
    TypeChangeSettles(c, f, d);
    forall p | At(p, e) ensures p in d.index <==> p in d.head {
      if p != e {
        UnderTransitive(p, e, f);
      }
      assert At(p, f);
    }
  }

  lemma SameFilesStay(c: Checkout, f: string, d: Checkout, e: string)
    requires ChecksOut(c, f, d) && Known(c, f) && SameFiles(c, e)
    ensures SameFiles(d, e)
  {
    hide NoneAbove;
    forall p | At(p, e) ensures p in d.index <==> p in d.head {
      if p in c.index && p !in d.index {
        HitInIndex(c, f, p);
      }
    }
  }

  lemma MoveKeepsKnown(c: Checkout, f: string, d: Checkout, e: string)
    requires Moves(c, f, d) && Known(c, e)
    ensures Known(d, e)
  {
    hide NoneAbove;
    if e in c.work && e !in d.work {
      forall p | At(p, e) ensures p !in c.index && p !in d.work {
        if p != e && e != f {
          UnderTransitive(p, e, f);
        }
        assert At(p, f);
      }
    } else if SameFiles(c, e) {
      assert SameFiles(d, e);
    }
  }

  lemma StepKeepsKnown(c: Checkout, f: string, d: Checkout, e: string)
    requires StepsTo(c, f, d) && Known(c, f) && Known(c, e)
    ensures Known(d, e)
  {
    hide Known, Moves, ChecksOut;
    if ChecksOut(c, f, d) {
      CheckoutKeepsKnown(c, f, d, e);
    } else {
      MoveKeepsKnown(c, f, d, e);
    }
  }
}
