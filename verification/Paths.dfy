/** Paths as git and the file system see them: a file never stands above another. */
module Paths {

  /** The path lies somewhere below the directory. */
  predicate Under(p: string, dir: string) {
    |p| > |dir| && p[..|dir|] == dir && p[|dir|] == '/'
  }

  /** What a pathspec names: the path itself, or everything below it. */
  predicate At(p: string, f: string) {
    p == f || Under(p, f)
  }

  /** One of the two stands above the other, so they cannot both be files. */
  predicate Clash(p: string, q: string) {
    Under(p, q) || Under(q, p)
  }

  lemma UnderTransitive(p: string, q: string, r: string)
    requires Under(p, q) && Under(q, r)
    ensures Under(p, r)
  {
    assert p[..|r|] == p[..|q|][..|r|] && p[|r|] == q[|r|];
  }

  /** Two paths above the same one stand above each other. */
  lemma UnderComparable(p: string, q: string, r: string)
    requires Under(p, q) && Under(p, r)
    ensures q == r || Clash(q, r)
  {
    if |q| == |r| {
      assert q == r;
    } else if |q| < |r| {
      assert r[..|q|] == p[..|r|][..|q|] && r[|q|] == p[|q|];
    } else {
      assert q[..|r|] == p[..|q|][..|r|] && q[|r|] == p[|r|];
    }
  }

  predicate NoneAbove(t: map<string, string>) {
    forall p, q :: p in t && q in t ==> !Under(p, q)
  }

  /** Files with their contents; none stands above another. */
  type Tree = t: map<string, string> | NoneAbove(t) witness map[]

  lemma NoClash(t: Tree, p: string, q: string)
    requires p in t && q in t
    ensures !Clash(p, q)
  {
  }

  /** The tree has something at or below the path. */
  predicate Lists(t: Tree, f: string) {
    exists p :: p in t && At(p, f)
  }

  /** The files a pathspec names. */
  function Select(t: Tree, f: string): (r: Tree)
    ensures forall p :: p in r <==> p in t && At(p, f)
    ensures forall p :: p in r ==> r[p] == t[p]
  {
    map p | p in t && At(p, f) :: t[p]
  }

  /** The files it does not name. */
  function Clear(t: Tree, f: string): (r: Tree)
    ensures forall p :: p in r <==> p in t && !At(p, f)
    ensures forall p :: p in r ==> r[p] == t[p]
  {
    map p | p in t && !At(p, f) :: t[p]
  }

  predicate Hit(p: string, patch: Tree) {
    exists q :: q in patch && Clash(p, q)
  }

  /** Writing a patch over a tree: what stands above or below a written file goes. */
  function Overlay(t: Tree, patch: Tree): (r: Tree)
    ensures forall p :: p in r <==> p in patch || (p in t && !Hit(p, patch))
    ensures forall p :: p in r ==> r[p] == if p in patch then patch[p] else t[p]
  {
    map p | p in t.Keys + patch.Keys && (p in patch || !Hit(p, patch)) :: if p in patch then patch[p] else t[p]
  }

  /** Same content, or both without the path. */
  predicate SameAt(a: Tree, b: Tree, p: string) {
    (p in a <==> p in b) && (p in a ==> a[p] == b[p])
  }

  /** The same files at and below a path. */
  ghost predicate AgreesAt(a: Tree, b: Tree, f: string) {
    forall p :: At(p, f) ==> SameAt(a, b, p)
  }
}
