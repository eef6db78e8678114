/** A workspace repository as the commit spine sees it: an append-only history, the staging index,
    the working tree and a quarantine directory (packages/core/src/commit-gate/git.ts,
    packages/core/src/commit-gate/workspace-commit.ts). A commit is named by its place in the history. */
module Repository {
  import opened Outcomes
  import opened Paths

  datatype Commit = Commit(files: seq<string>, tree: Tree)

  /** Everything a restore can touch. */
  datatype Checkout = Checkout(head: Tree, index: Tree, work: Tree, quarantine: Tree)

  datatype Receipt = Receipt(sha: Option<nat>, files: seq<string>, outOfLane: seq<string>, error: Option<string>) {
    predicate Committed() { sha.Some? }
  }

  function NoCommit(outOfLane: seq<string>, error: Option<string>): Receipt {
    Receipt(None, [], outOfLane, error)
  }

  /** What git answers when asked to stage and to commit; both are decided outside this model. */
  datatype GitVerdict = GitVerdict(stages: bool, commits: bool)

  // ----- restoring paths to HEAD, on values -----

  /** Nothing in the quarantine directory stops a file or directory from being moved to `f`. */
  predicate Room(quarantine: Tree, work: Tree, f: string) {
    forall p :: p in quarantine ==> !Clash(p, f) && (p == f ==> f in work)
  }

  /** Everything at or below `f` moved to quarantine. */
  function Moved(quarantine: Tree, work: Tree, f: string): (r: Tree)
    requires Room(quarantine, work, f)
    ensures forall p :: p in r <==> p in quarantine || (p in work && At(p, f))
    ensures forall p :: p in r ==> r[p] == if p in work && At(p, f) then work[p] else quarantine[p]
  {
    MovesApart(quarantine, work, f);
    map p | p in quarantine.Keys + work.Keys && (p in quarantine || At(p, f))
      :: if p in work && At(p, f) then work[p] else quarantine[p]
  }

  lemma MovesApart(quarantine: Tree, work: Tree, f: string)
    requires Room(quarantine, work, f)
    ensures forall p, q :: p in quarantine && q in work && At(q, f) ==> !Clash(p, q)
  {
    forall p, q | p in quarantine && q in work && At(q, f) ensures !Clash(p, q) {
      if q != f {
        if Under(p, q) {
          UnderTransitive(p, q, f);
        } else if Under(q, p) {
          UnderComparable(q, p, f);
          if f in work {
            NoClash(work, q, f);
          }
        }
      }
    }
  }

  /** One path of a restore. A tracked path checks out what HEAD has at or below it, writing over whatever
      stands in the way; any other is moved to quarantine. None is git or the file system refusing. */
  function RestoreOne(c: Checkout, f: string): Option<Checkout> {
    if Lists(c.index, f) then
      var patch := Select(c.head, f);
      if patch == map[] then None
      else Some(c.(index := Overlay(c.index, patch), work := Overlay(c.work, patch)))
    else if Select(c.work, f) == map[] || !Room(c.quarantine, c.work, f) then None
    else Some(c.(work := Clear(c.work, f), quarantine := Moved(c.quarantine, c.work, f)))
  }

  /** A restore goes path by path and stops at the first refusal, keeping what it did. */
  function RestoreAll(c: Checkout, files: seq<string>): (Checkout, bool)
    decreases |files|
  {
    if files == [] then (c, true)
    else
      match RestoreOne(c, files[0])
      case None => (c, false)
      case Some(next) => RestoreAll(next, files[1..])
  }

  // ----- committing listed paths, on values -----

  predicate Covered(p: string, files: seq<string>) {
    exists i :: 0 <= i < |files| && At(p, files[i])
  }

  /** The path stands above a file the commit writes, and gives way to it. */
  predicate Displaced(p: string, work: Tree, files: seq<string>) {
    exists q :: q in work && Covered(q, files) && Under(q, p)
  }

  /** The tree a commit of `files` makes: what the working tree has at and below them, over the base. */
  function TreeWith(base: Tree, work: Tree, files: seq<string>): (t: Tree)
    ensures forall p :: Covered(p, files) ==> SameAt(t, work, p)
    ensures forall p :: !Covered(p, files) && !Displaced(p, work, files) ==> SameAt(t, base, p)
    ensures forall p :: !Covered(p, files) && Displaced(p, work, files) ==> p !in t
  {
    var kept: Tree := map p | p in base && !Covered(p, files) :: base[p];
    var written: Tree := map p | p in work && Covered(p, files) :: work[p];
    CoveredBelow(work, files);
    assert forall p :: p in written <==> p in work && Covered(p, files);
    Overlay(kept, written)
  }

  lemma CoveredBelow(work: Tree, files: seq<string>)
    ensures forall p, q :: Covered(q, files) && Under(p, q) ==> Covered(p, files)
  {
    forall p, q | Covered(q, files) && Under(p, q) ensures Covered(p, files) {
      var i :| 0 <= i < |files| && At(q, files[i]);
      if q != files[i] {
        UnderTransitive(p, q, files[i]);
      }
      assert At(p, files[i]);
    }
  }

  // ----- the repository -----

  class Repo {
    var history: seq<Commit>
    var index: Tree
    var work: Tree
    var quarantine: Tree

    ghost predicate Valid()
      reads this
    {
      history != []
    }

    function Head(): Tree
      requires Valid()
      reads this
    {
      history[|history| - 1].tree
    }

    /** HEAD's name. */
    function HeadSha(): nat
      reads this
    {
      |history|
    }

    ghost function View(): Checkout
      requires Valid()
      reads this
    {
      Checkout(Head(), index, work, quarantine)
    }

    constructor (tree: Tree)
      ensures Valid() && history == [Commit([], tree)] && View() == Checkout(tree, tree, tree, map[])
    {
      history := [Commit([], tree)];
      index, work, quarantine := tree, tree, map[];
    }

    /** Stage the listed paths that exist, unstage those that do not, commit exactly the list. */
    method AddAndCommit(files: seq<string>, verdict: GitVerdict) returns (sha: Option<nat>)
      requires Valid()
      modifies this
      ensures Valid() && work == old(work) && quarantine == old(quarantine)
      ensures index == if verdict.stages then TreeWith(old(index), work, files) else old(index)
      ensures sha.Some? <==> verdict.stages && verdict.commits
      ensures sha.None? ==> history == old(history)
      ensures sha.Some? ==>
                && history == old(history) + [Commit(files, TreeWith(old(Head()), work, files))]
                && sha.value == HeadSha()
    {
      hide TreeWith;
      if !verdict.stages {
        return None;
      }
      index := TreeWith(index, work, files);
      if !verdict.commits {
        return None;
      }
      history := history + [Commit(files, TreeWith(Head(), work, files))];
      sha := Some(|history|);
    }

    /** Commit a list the caller controls. A failure is reported in the receipt, never swallowed. */
    method CommitFiles(files: seq<string>, verdict: GitVerdict) returns (receipt: Receipt)
      requires Valid()
      modifies this
      ensures Valid() && work == old(work) && quarantine == old(quarantine)
      ensures receipt.outOfLane == []
      ensures receipt.Committed() <==> files != [] && verdict.stages && verdict.commits
      ensures receipt.error.Some? <==> files != [] && !receipt.Committed()
      ensures receipt.Committed() ==>
                && receipt.sha == Some(HeadSha()) && receipt.files == files
                && history == old(history) + [Commit(files, TreeWith(old(Head()), work, files))]
      ensures !receipt.Committed() ==> history == old(history) && receipt.files == []
    {
      hide TreeWith;
      if |files| == 0 {
        return NoCommit([], None);
      }
      var sha := AddAndCommit(files, verdict);
      if sha.None? {
        return NoCommit([], Some("git commit failed"));
      }
      receipt := Receipt(sha, files, [], None);
    }

    /** Discard the listed paths' changes back to HEAD. */
    method RestoreToHead(files: seq<string>) returns (ok: bool)
      requires Valid()
      modifies this
      ensures Valid() && history == old(history)
      ensures (View(), ok) == RestoreAll(old(View()), files)
    {
      hide RestoreOne;
      var i := 0;
      while i < |files|
        invariant 0 <= i <= |files| && history == old(history)
        invariant RestoreAll(View(), files[i..]) == RestoreAll(old(View()), files)
      {
        assert files[i..][0] == files[i] && files[i..][1..] == files[i + 1..];
        var restored := RestorePath(files[i]);
        if !restored {
          return false;
        }
        i := i + 1;
      }
      ok := true;
    }

    /** One path: tracked-ness decides between a checkout and a move to quarantine. */
    method RestorePath(f: string) returns (ok: bool)
      requires Valid()
      modifies this`index, this`work, this`quarantine
      ensures if ok then RestoreOne(old(View()), f) == Some(View())
              else RestoreOne(old(View()), f) == None && View() == old(View())
    {
      hide Lists, Select, Overlay, Room, Moved, Clear, NoneAbove, At;
      if Lists(index, f) {
        ok := CheckOut(f);
      } else {
        ok := MoveAside(f);
      }
    }

    /** HEAD's files at and below the path go to the index and the working tree. */
    method CheckOut(f: string) returns (ok: bool)
      requires Valid()
      modifies this`index, this`work
      ensures ok <==> Select(Head(), f) != map[]
      ensures index == if ok then Overlay(old(index), Select(Head(), f)) else old(index)
      ensures work == if ok then Overlay(old(work), Select(Head(), f)) else old(work)
    {
      hide Select, Overlay, NoneAbove, At, Hit;
      var patch := Select(Head(), f);
      if patch == map[] {
        return false;
      }
      index, work := Overlay(index, patch), Overlay(work, patch);
      ok := true;
    }

    /** What the working tree has at and below the path goes to quarantine. */
    method MoveAside(f: string) returns (ok: bool)
      modifies this`work, this`quarantine
      ensures ok <==> Select(old(work), f) != map[] && Room(old(quarantine), old(work), f)
      ensures work == if ok then Clear(old(work), f) else old(work)
      ensures ok ==> quarantine == Moved(old(quarantine), old(work), f)
      ensures !ok ==> quarantine == old(quarantine)
    {
      hide Select, Room, Moved, Clear, NoneAbove, At;
      if Select(work, f) == map[] || !Room(quarantine, work, f) {
        return false;
      }
      quarantine, work := Moved(quarantine, work, f), Clear(work, f);
      ok := true;
    }
  }
}
