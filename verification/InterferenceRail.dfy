/** The rail that bounds what Deb may land on her own: `.md` edits commit, everything else is taken
    out of the working tree and held (packages/core/src/write-scope/interference.ts,
    packages/daemon/src/launcher.ts). */
module InterferenceRail {
  import opened Outcomes
  import opened Text
  import opened Paths
  import opened Repository
  import opened RestoreSteps
  import opened RestoreTheorems

  predicate IsInstructionSurface(file: string) {
    var name := Trim(file);
    |name| >= 3 && name[|name| - 3] == '.' && name[|name| - 2] in "mM" && name[|name| - 1] in "dD"
  }

  /** A surface is a file whose trimmed name ends in `.md`, whatever the case. */
  lemma SurfaceIff(file: string)
    ensures IsInstructionSurface(file) <==> exists stem, ext :: Trim(file) == stem + ext && Lower(ext) == ".md"
  {
    var name := Trim(file);
    if IsInstructionSurface(file) {
      var stem, ext := name[..|name| - 3], name[|name| - 3..];
      assert name == stem + ext && Lower(ext) == ".md";
    }
    if stem, ext :| name == stem + ext && Lower(ext) == ".md" {
      assert |Lower(ext)| == |ext| == 3 && ext == name[|stem|..];
      assert Lower(ext)[0] == '.' && Lower(ext)[1] == 'm' && Lower(ext)[2] == 'd';
    }
  }

  predicate Interferes(changed: seq<string>) {
    exists i :: 0 <= i < |changed| && !IsInstructionSurface(changed[i])
  }

  function OutOfLane(changed: seq<string>): (r: seq<string>)
    ensures r == [] <==> !Interferes(changed)
    ensures forall f :: f in r <==> f in changed && !IsInstructionSurface(f)
  {
    if changed == [] then []
    else
      assert changed == [changed[0]] + changed[1..];
      (if IsInstructionSurface(changed[0]) then [] else [changed[0]]) + OutOfLane(changed[1..])
  }

  datatype Landing = Landing(sha: Option<nat>, committedPaths: seq<string>, outOfLanePaths: seq<string>, interfering: bool)

  /** Land a non-interfering change as one commit, or hold an interfering one. Err stands for a
      thrown git or file-system error. */
  method CommitDebRepair(repo: Repo, changed: seq<string>, verdict: GitVerdict) returns (r: Result<Landing>)
    requires repo.Valid()
    modifies repo
    ensures repo.Valid()
    ensures Interferes(changed) ==>
              && repo.history == old(repo.history)
              && repo.View() == RestoreAll(old(repo.View()), changed).0
              && (r.Ok? <==> RestoreAll(old(repo.View()), changed).1)
              && (r.Ok? ==> r.value == Landing(None, [], OutOfLane(changed), true))
    ensures !Interferes(changed) ==>
              && repo.work == old(repo.work) && repo.quarantine == old(repo.quarantine)
              && (r.Ok? <==> changed == [] || (verdict.stages && verdict.commits))
              && (r.Ok? && changed != [] ==>
                    && repo.history == old(repo.history) + [Commit(changed, TreeWith(old(repo.Head()), repo.work, changed))]
                    && r.value == Landing(Some(repo.HeadSha()), changed, [], false))
              && (r.Err? || changed == [] ==> repo.history == old(repo.history))
              && (changed == [] ==> r == Ok(Landing(None, [], [], false)))
  {
    if Interferes(changed) {
      var restored := repo.RestoreToHead(changed);
      if !restored {
        return Err("restore to HEAD failed");
      }
      return Ok(Landing(None, [], OutOfLane(changed), true));
    }
    var receipt := repo.CommitFiles(changed, verdict);
    if |changed| > 0 && !receipt.Committed() {
      return Err("deb self-fix commit failed");
    }
    r := Ok(Landing(receipt.sha, receipt.files, [], false));
  }

  /** The rail on any interfering edit, held into a quarantine directory apart from what is untracked:
      HEAD stays; the listed paths are HEAD's again without loss exactly when the list was restorable;
      whatever the list, untracked content it does not threaten survives, and what is aside of it is
      as it was. */
  lemma RailHolds(before: Checkout, changed: seq<string>)
    requires Interferes(changed)
    requires Apart(before) && AllKnown(before, changed)
    ensures RestoreAll(before, changed).0.head == before.head
    ensures Restorable(before, changed) <==> Restored(before, changed)
    ensures forall p :: Untracked(before, p) && Unthreatened(before, changed, p)
              ==> Survives(before, RestoreAll(before, changed).0, p)
    ensures forall p :: Aside(before, changed, p) ==> SameAt(RestoreAll(before, changed).0.work, before.work, p)
  {
    hide RestoreAll, Restored, Restorable, Unthreatened, Apart, AllKnown, Survives;
    RestoreOnward(before, changed);
    RestoreIffRestorable(before, changed);
    forall p | Untracked(before, p) && Unthreatened(before, changed, p)
      ensures Survives(before, RestoreAll(before, changed).0, p)
    {
      UntrackedContentSurvives(before, changed, p);
    }
    forall p | Aside(before, changed, p) ensures SameAt(RestoreAll(before, changed).0.work, before.work, p) {
      RestoreFrame(before, changed, p);
    }
  }

  /** A path of blanks only is not an instruction surface. */
  lemma SurfaceNotBlank(file: string)
    requires IsInstructionSurface(file)
    ensures !AllBlank(file)
  {
    TrimOfBlank(file);
  }
}
