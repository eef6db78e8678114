/** Registration and creation of priorities (packages/daemon/src/priority-order.ts,
    packages/daemon/src/priority-authoring.ts). */
module Priorities {
  import opened Outcomes
  import opened Text
  import opened Governance
  import opened PriorityText

  /** A file's path below the priorities directory, segment by segment. */
  type Path = p: seq<string> | p != [] witness ["README.md"]

  // ----- ascending ids -----

  predicate Precedes(a: string, b: string) {
    if b == "" then false
    else if a == "" then true
    else if a[0] != b[0] then a[0] < b[0]
    else Precedes(a[1..], b[1..])
  }

  lemma {:induction false} PrecedesTotal(a: string, b: string)
    ensures a == b || Precedes(a, b) || Precedes(b, a)
    ensures !(Precedes(a, b) && Precedes(b, a)) && (a == b ==> !Precedes(a, b))
  {
    if a != "" && b != "" && a[0] == b[0] {
      PrecedesTotal(a[1..], b[1..]);
      assert a == [a[0]] + a[1..] && b == [b[0]] + b[1..];
    }
  }

  lemma {:induction false} PrecedesTransitive(a: string, b: string, c: string)
    requires Precedes(a, b) && Precedes(b, c)
    ensures Precedes(a, c)
  {
    if a != "" && a[0] == b[0] == c[0] {
      PrecedesTransitive(a[1..], b[1..], c[1..]);
    }
  }

  /** The shorter of two where one begins the other, and else the smaller at the first difference. */
  lemma {:induction false} PrecedesIff(a: string, b: string)
    ensures Precedes(a, b) <==> exists i :: 0 <= i <= |a| && i < |b| && a[..i] == b[..i] && (i == |a| || a[i] < b[i])
  {
    if a != "" && b != "" && a[0] == b[0] {
      var x, y := a[1..], b[1..];
      PrecedesIff(x, y);
      if Precedes(x, y) {
        var i :| 0 <= i <= |x| && i < |y| && x[..i] == y[..i] && (i == |x| || x[i] < y[i]);
        assert a[..i + 1] == [a[0]] + x[..i] && b[..i + 1] == [b[0]] + y[..i];
      }
      if i :| 0 <= i <= |a| && i < |b| && a[..i] == b[..i] && (i == |a| || a[i] < b[i]) {
        assert i > 0;
        assert x[..i - 1] == a[..i][1..] == b[..i][1..] == y[..i - 1];
      }
    } else if b != "" && (a == "" || a[0] < b[0]) {
      assert a[..0] == b[..0];
    } else {
      assert forall i :: 0 < i <= |a| && i < |b| ==> a[..i][0] == a[0] && b[..i][0] == b[0];
    }
  }

  predicate Ascending(ids: seq<string>) {
    forall i, j :: 0 <= i < j < |ids| ==> Precedes(ids[i], ids[j])
  }

  /** The ids of a set, in order. */
  method Sort(ids: set<string>) returns (sorted: seq<string>)
    ensures Ascending(sorted) && forall id :: id in sorted <==> id in ids
  {
    sorted := [];
    var left := ids;
    while left != {}
      invariant left <= ids && Ascending(sorted)
      invariant forall id :: id in sorted <==> id in ids && id !in left
      decreases |left|
    {
      var id :| id in left;
      left := left - {id};
      sorted := Insert(sorted, id);
    }
  }

  function Insert(sorted: seq<string>, id: string): (r: seq<string>)
    requires Ascending(sorted) && id !in sorted
    ensures Ascending(r) && forall x :: x in r <==> x in sorted || x == id
  {
    if sorted == [] then [id]
    else
      var last := sorted[|sorted| - 1];
      PrecedesTotal(last, id);
      if Precedes(last, id) then
        AscendingSnoc(sorted, id);
        sorted + [id]
      else
        var front := Insert(sorted[..|sorted| - 1], id);
        assert sorted == sorted[..|sorted| - 1] + [last];
        InsertBelow(sorted, front, id);
        front + [last]
  }

  lemma AscendingSnoc(sorted: seq<string>, id: string)
    requires Ascending(sorted) && sorted != [] && Precedes(sorted[|sorted| - 1], id)
    ensures Ascending(sorted + [id])
  {
    forall i | 0 <= i < |sorted| ensures Precedes(sorted[i], id) {
      if i < |sorted| - 1 {
        PrecedesTransitive(sorted[i], sorted[|sorted| - 1], id);
      }
    }
  }

  lemma InsertBelow(sorted: seq<string>, front: seq<string>, id: string)
    requires Ascending(sorted) && sorted != [] && Ascending(front) && Precedes(id, sorted[|sorted| - 1])
    requires forall x :: x in front <==> x in sorted[..|sorted| - 1] || x == id
    ensures Ascending(front + [sorted[|sorted| - 1]])
  {
    forall i | 0 <= i < |front| ensures Precedes(front[i], sorted[|sorted| - 1]) {
      assert front[i] in front;
    }
  }

  /** Only one ascending list holds given ids. */
  lemma {:induction false} AscendingUnique(a: seq<string>, b: seq<string>)
    requires Ascending(a) && Ascending(b) && forall x :: x in a <==> x in b
    ensures a == b
  {
    assert b != [] ==> b[0] in b;
    if a != [] {
      assert a[0] in b && b != [];
      LeastFirst(a, b);
      assert a == [a[0]] + a[1..] && b == [b[0]] + b[1..];
      forall x ensures x in a[1..] <==> x in b[1..] {
        TailHas(a, x);
        TailHas(b, x);
      }
      AscendingUnique(a[1..], b[1..]);
    }
  }

  lemma LeastFirst(a: seq<string>, b: seq<string>)
    requires Ascending(a) && Ascending(b) && a != [] && b != [] && a[0] in b && b[0] in a
    ensures a[0] == b[0]
  {
    var i :| 0 <= i < |b| && b[i] == a[0];
    var j :| 0 <= j < |a| && a[j] == b[0];
    PrecedesTotal(a[0], b[0]);
  }

  lemma TailHas(a: seq<string>, x: string)
    requires Ascending(a) && a != []
    ensures x in a[1..] <==> x in a && x != a[0]
  {
    if x in a[1..] {
      var i :| 0 <= i < |a[1..]| && a[1..][i] == x;
      PrecedesTotal(a[0], a[i + 1]);
    }
    assert forall i :: 1 <= i < |a| ==> a[i] == a[1..][i - 1];
  }

  // ----- live priorities nobody listed -----

  const ADHOC := "adhoc-session"

  predicate IsMarkdown(name: string) {
    |name| > 3 && name[|name| - 3..] == ".md"
  }

  function Stem(name: string): string
    requires IsMarkdown(name)
  {
    name[..|name| - 3]
  }

  /** In the archive or the backlog: the first segment says. */
  predicate Shelved(p: Path) {
    p[0] == "archive" || p[0] == "backlog"
  }

  /** A priority file that loads under its own name, off the shelf, and is neither listed nor ad hoc. */
  predicate LiveUnlisted(files: map<Path, string>, listed: set<string>, p: Path) {
    && p in files && IsMarkdown(p[|p| - 1])
    && var id := Stem(p[|p| - 1]);
       Loads(files[p], id) && !Shelved(p) && id !in listed && id != ADHOC
  }

  function OrphanIds(files: map<Path, string>, listed: set<string>): (ids: set<string>)
    ensures forall id :: id in ids <==> exists p: Path :: LiveUnlisted(files, listed, p) && Stem(p[|p| - 1]) == id
  {
    set p: Path | p in files && LiveUnlisted(files, listed, p) :: Stem(p[|p| - 1])
  }

  /** Missing in the order is exactly the name of a file that loads under it, neither in the archive nor in the
      backlog, unless it is listed or the ad-hoc one. */
  lemma OrphanIff(files: map<Path, string>, listed: set<string>, id: string)
    ensures id in OrphanIds(files, listed) <==>
            && id !in listed && id != "adhoc-session" && id != ""
            && exists p: Path ::
                 p in files && p[|p| - 1] == id + ".md" && p[0] !in {"archive", "backlog"} && Loads(files[p], id)
  {
    hide Loads;
    if p: Path :| LiveUnlisted(files, listed, p) && Stem(p[|p| - 1]) == id {
      var name := p[|p| - 1];
      assert name == name[..|name| - 3] + name[|name| - 3..];
    }
    assert id != "" ==> IsMarkdown(id + ".md") && Stem(id + ".md") == id;
    if p: Path :| id !in listed && id != ADHOC && id != "" && p in files && p[|p| - 1] == id + ".md"
                  && p[0] !in {"archive", "backlog"} && Loads(files[p], id) {
      assert LiveUnlisted(files, listed, p);
    }
  }

  function Ids(manifest: Option<seq<string>>): set<string> {
    if manifest.None? then {} else set id | id in manifest.value
  }

  function Listed(manifest: Option<seq<string>>): seq<string> {
    if manifest.None? then [] else manifest.value
  }

  /** What registering leaves: the old list, then the ids that were missing, in order. */
  ghost predicate Registered(files: map<Path, string>, before: Option<seq<string>>, after: Option<seq<string>>) {
    exists added :: Registers(files, before, after, added)
  }

  ghost predicate Registers(files: map<Path, string>, before: Option<seq<string>>, after: Option<seq<string>>, added: seq<string>) {
    && Ascending(added) && (forall id :: id in added <==> id in OrphanIds(files, Ids(before)))
    && after == if added == [] then before else Some(Listed(before) + added)
  }

  /** The order with what is missing, written to its draft if anything is. */
  ghost predicate DraftedOrder(files: map<Path, string>, manifest: Option<seq<string>>, before: Option<seq<string>>,
                               after: Option<seq<string>>) {
    exists added :: Drafts(files, manifest, before, after, added)
  }

  ghost predicate Drafts(files: map<Path, string>, manifest: Option<seq<string>>, before: Option<seq<string>>,
                         after: Option<seq<string>>, added: seq<string>) {
    && Ascending(added) && (forall id :: id in added <==> id in OrphanIds(files, Ids(manifest)))
    && after == if added == [] then before else Some(Listed(manifest) + added)
  }

  lemma NoneIsEmpty(ids: seq<string>)
    ensures (forall id :: id !in ids) ==> ids == []
  {
    if ids != [] {
      assert ids[0] in ids;
    }
  }

  /** Registration keeps the old list as a prefix, leaves no orphan, and done again changes nothing. */
  lemma {:induction false} RegisteredLeavesNoOrphan(files: map<Path, string>, before: Option<seq<string>>, after: Option<seq<string>>)
    requires Registered(files, before, after)
    ensures Listed(before) <= Listed(after) && OrphanIds(files, Ids(after)) == {}
    ensures forall again :: Registered(files, after, again) ==> again == after
    ensures forall other :: Registered(files, before, other) ==> other == after
  {
    var added :| Registers(files, before, after, added);
    forall p: Path | LiveUnlisted(files, Ids(before), p) ensures Stem(p[|p| - 1]) in Ids(after) {
      assert Stem(p[|p| - 1]) in OrphanIds(files, Ids(before));
    }
    assert forall p: Path :: LiveUnlisted(files, Ids(after), p) ==> LiveUnlisted(files, Ids(before), p);
    forall again | Registered(files, after, again) ensures again == after {
      var more :| Registers(files, after, again, more);
      NoneIsEmpty(more);
    }
    forall other | Registered(files, before, other) ensures other == after {
      var more :| Registers(files, before, other, more);
      AscendingUnique(added, more);
    }
  }

  // ----- the directory -----

  /** What is left when a creation stops after this many writes: removing what is aside comes first, and if
      that throws the file in place stays. */
  function Left(files: map<Path, string>, aside: Path, target: Path, text: string, writes: nat, stuck: set<File>): map<Path, string> {
    if writes == 1 && AsideFile in stuck then files[aside := text]
    else if writes >= 2 && (AsideFile in stuck || TargetFile in stuck) then files[target := text]
    else files
  }

  /** The writes made before the creation stops; a text that does not read back stops it aside. */
  function Stop(b: Break, legible: bool): nat
  {
    if !legible && Made(b, 1) then 1 else if b.At? then b.writes else 4
  }

  class PrioritiesDirectory {
    var files: map<Path, string>
    var otherNames: set<string>            // top-level names that are not among `files`
    var manifest: Option<seq<string>>      // order.json, if it is a list of strings
    var draft: Option<seq<string>>         // what a registration that broke left unrenamed

    constructor (files: map<Path, string>, otherNames: set<string>, manifest: Option<seq<string>>)
      ensures this.files == files && this.otherNames == otherNames && this.manifest == manifest && draft.None?
    {
      this.files, this.otherNames, this.manifest, this.draft := files, otherNames, manifest, None;
    }

    method LiveUnlistedPriorityIds(listed: set<string>) returns (orphans: seq<string>)
      ensures Ascending(orphans) && forall id :: id in orphans <==> id in OrphanIds(files, listed)
    {
      var found: set<string> := {};
      var left := files.Keys;
      while left != {}
        invariant left <= files.Keys
        invariant forall id :: id in found <==>
                    exists p: Path :: p !in left && LiveUnlisted(files, listed, p) && Stem(p[|p| - 1]) == id
        decreases |left|
      {
        var p: Path :| p in left;
        left := left - {p};
        if !IsMarkdown(p[|p| - 1]) {
          continue;
        }
        var id := Stem(p[|p| - 1]);
        if !Loads(files[p], id) {
          continue;
        }
        if Shelved(p) || id in listed || id == ADHOC {
          continue;
        }
        found := found + {id};
      }
      orphans := Sort(found);
    }

    /** Writes the order with what is missing to its draft, if anything is. */
    method DraftOrder() returns (order: seq<string>)
      modifies this`draft
      ensures DraftedOrder(files, manifest, old(draft), draft)
      ensures order != Listed(manifest) ==> draft == Some(order)
      ensures order == Listed(manifest) ==> draft == old(draft) && Registered(files, manifest, manifest)
      ensures order != Listed(manifest) ==> Registered(files, manifest, Some(order))
    {
      var listed := Listed(manifest);
      var added := LiveUnlistedPriorityIds(Ids(manifest));
      order := listed + added;
      if |order| == |listed| {
        assert Registers(files, manifest, manifest, added);
        assert Drafts(files, manifest, draft, draft, added);
        return;
      }
      ghost var before := draft;
      draft := Some(order);
      assert Registers(files, manifest, Some(order), added);
      assert Drafts(files, manifest, before, draft, added);
    }

    method RegisterLivePriorities() returns (order: seq<string>)
      modifies this`manifest, this`draft
      ensures Registered(files, old(manifest), manifest) && order == Listed(manifest)
      ensures draft == if manifest == old(manifest) then old(draft) else None
    {
      order := DraftOrder();
      if order == Listed(manifest) {
        return;
      }
      manifest, draft := draft, None;
    }

    /** A name that differs from this one at most in case. */
    predicate NameTaken(name: string)
      reads this
    {
      || (exists n :: n in otherNames && Lower(n) == Lower(name))
      || (exists p: Path :: p in files && Lower(p[0]) == Lower(name))
    }

    /** Create a priority: written aside, checked, renamed into place, registered; undone when anything
        on the way breaks, as far as the clean-up gets. */
    method CreatePriorityFiles(id: string, title: string, goal: string, tmp: string, b: Break, stuck: set<File>)
      returns (created: bool)
      requires tmp != id + ".md" && forall p: Path :: p in files ==> p[0] != tmp
      modifies this
      ensures otherNames == old(otherNames)
      ensures old(NameTaken(id + ".md")) <==>
                || (exists n :: n in otherNames && Lower(n) == Lower(id + ".md"))
                || (exists p: Path :: p in old(files) && Lower(p[0]) == Lower(id + ".md"))
      ensures created <==>
                && !old(NameTaken(id + ".md")) && Made(b, 4)
                && Validates(ComposePriorityMarkdown(id, title, goal), id, title)
      ensures created ==>
                && files == old(files)[[id + ".md"] := ComposePriorityMarkdown(id, title, goal)]
                && Registered(files, old(manifest), manifest) && draft == (if manifest == old(manifest) then old(draft) else None)
      ensures !created ==> manifest == old(manifest)
      ensures old(NameTaken(id + ".md")) ==> files == old(files) && draft == old(draft)
      ensures !created && !old(NameTaken(id + ".md")) ==>
                StoppedAt(old(files), files, tmp, id + ".md", ComposePriorityMarkdown(id, title, goal),
                          Stop(b, Validates(ComposePriorityMarkdown(id, title, goal), id, title)), stuck,
                          manifest, old(draft), draft)
    {
      hide ComposePriorityMarkdown, Validates, Left, Registered, DraftedOrder;
      var name, text := id + ".md", ComposePriorityMarkdown(id, title, goal);
      if NameTaken(name) {
        return false;
      }
      NewNames(tmp, name);
      ghost var before := files;
      created := PlaceFile(id, title, text, [tmp, name], [name], b, stuck);
      if created {
        if b == At(3) {
          var _ := DraftOrder();
          Cleaned(before, [tmp, name], [name], text, stuck);
          Undo([tmp, name], [name], stuck);
          return false;
        }
        var _ := RegisterLivePriorities();
      }
    }

    lemma NewNames(tmp: string, name: string)
      requires !NameTaken(name) && forall p: Path :: p in files ==> p[0] != tmp
      ensures [name] !in files && [tmp, name] !in files
    {
      var target: Path, aside: Path := [name], [tmp, name];
      assert target[0] == name && aside[0] == tmp;
    }

    /** Write aside, check, rename into place, check again. */
    method PlaceFile(id: string, title: string, markdown: string, aside: Path, target: Path, b: Break, stuck: set<File>)
      returns (placed: bool)
      requires aside != target && target !in files && aside !in files
      modifies this`files
      ensures placed <==> Made(b, 3) && Validates(markdown, id, title)
      ensures placed ==> files == old(files)[target := markdown]
      ensures !placed ==> files == Left(old(files), aside, target, markdown, Stop(b, Validates(markdown, id, title)), stuck)
    {
      hide Validates, Left, Undid;
      Cleaned(files, aside, target, markdown, stuck);
      if b == At(0) {
        Undo(aside, target, stuck);
        return false;
      }
      files := files[aside := markdown];
      if b == At(1) || !Validates(files[aside], id, title) {
        Undo(aside, target, stuck);
        return false;
      }
      files := (files - {aside})[target := markdown];
      if b == At(2) || !Validates(files[target], id, title) {
        Undo(aside, target, stuck);
        return false;
      }
      placed := true;
    }

    /** Removes what is aside, then what is in place; the first that cannot be removed throws. */
    method Undo(aside: Path, target: Path, stuck: set<File>)
      modifies this`files
      ensures files == Undid(old(files), aside, target, stuck)
    {
      if AsideFile in stuck {
        return;
      }
      files := files - {aside};
      if TargetFile in stuck {
        return;
      }
      files := files - {target};
    }
  }

  /** A creation stopped after this many writes: what is left of its files, and a draft of the order if it
      came to its registration. */
  ghost predicate StoppedAt(before: map<Path, string>, after: map<Path, string>, tmp: string, name: string, text: string,
                            stop: nat, stuck: set<File>, manifest: Option<seq<string>>,
                            draftBefore: Option<seq<string>>, draftAfter: Option<seq<string>>) {
    && after == Left(before, [tmp, name], [name], text, stop, stuck)
    && (if stop < 3 then draftAfter == draftBefore else DraftedOrder(before[[name] := text], manifest, draftBefore, draftAfter))
  }

  function Undid(files: map<Path, string>, aside: Path, target: Path, stuck: set<File>): map<Path, string> {
    if AsideFile in stuck then files
    else if TargetFile in stuck then files - {aside}
    else files - {aside} - {target}
  }

  /** What undoing leaves, by how many writes were made. */
  lemma Cleaned(before: map<Path, string>, aside: Path, target: Path, text: string, stuck: set<File>)
    requires aside != target && target !in before && aside !in before
    ensures Undid(before, aside, target, stuck) == Left(before, aside, target, text, 0, stuck)
    ensures Undid(before[aside := text], aside, target, stuck) == Left(before, aside, target, text, 1, stuck)
    ensures (before[aside := text] - {aside})[target := text] == before[target := text]
    ensures forall n: nat :: n >= 2 ==>
              Undid(before[target := text], aside, target, stuck) == Left(before, aside, target, text, n, stuck)
  {
    assert before - {aside} == before && before - {aside} - {target} == before;
    assert before[aside := text] - {aside} == before;
    assert before[target := text] - {aside} == before[target := text] && before[target := text] - {target} == before;
  }

  /** A stopped creation is the one the governance files know: the same is left in place, and aside. */
  lemma LeftAsGoverned(d: Disk, files: map<Path, string>, id: string, aside: Path, target: Path, text: string, b: Break,
                       legible: bool, stuck: set<File>, registers: seq<string>)
    requires !(Made(b, 4) && legible) && !PriorityTaken(d, id)
    requires aside != target && target !in files && aside !in files
    ensures var stop := Stop(b, legible);
            var left := Left(files, aside, target, text, stop, stuck);
            var governed := CreatePriority(d, id, At(stop), stuck, registers).disk;
            && (target in left <==> id in governed.priorities)
            && (aside in left <==> governed.asides != d.asides)
  {
    assert id in d.priorities ==> PriorityTaken(d, id);
    assert |d.asides + [id]| == |d.asides| + 1;
  }

  /** A created priority is listed from then on, unless it is the ad-hoc one. */
  lemma CreatedIsListed(files: map<Path, string>, before: Option<seq<string>>, after: Option<seq<string>>,
                        id: string, title: string, markdown: string)
    requires id != "" && Validates(markdown, id, title)
    requires [id + ".md"] in files && files[[id + ".md"]] == markdown && Registered(files, before, after)
    ensures id in Listed(after) || id == ADHOC
  {
    RegisteredLeavesNoOrphan(files, before, after);
    var name := id + ".md";
    var p: Path := [name];
    assert Stem(name) == id && name[|name| - 1] == 'd' && !Shelved(p);
    assert LiveUnlisted(files, Ids(after), p) ==> id in OrphanIds(files, Ids(after));
  }
}
