/** Ordering tickets and priorities by the ids of an order.json (packages/daemon/src/priority-order.ts). */
module ManifestOrder {
  import opened Outcomes
  import opened Sequences

  // ----- what the order is -----

  /** `new Map(items.map(...))`: of items with one id the last is found. */
  function ById<T(!new)>(items: seq<T>, idOf: T -> string): (m: map<string, T>)
    ensures forall k :: k in m ==> m[k] in items && idOf(m[k]) == k
    ensures forall x :: x in items ==> idOf(x) in m
  {
    if items == [] then map[]
    else
      var x := items[|items| - 1];
      assert forall y :: y in items <==> y in items[..|items| - 1] || y == x;
      ById(items[..|items| - 1], idOf)[idOf(x) := x]
  }

  /** The listed ids that some item has, each once, in the order they are first listed. */
  function Found<T>(manifest: seq<string>, m: map<string, T>): (ids: seq<string>)
    ensures Distinct(ids) && forall k :: k in ids <==> k in manifest && k in m
  {
    Unique(Filter(manifest, k => k in m))
  }

  function ItemsOf<T(!new)>(ids: seq<string>, m: map<string, T>): seq<T>
    requires forall k :: k in ids ==> k in m
  {
    seq(|ids|, i requires 0 <= i < |ids| => m[ids[i]])
  }

  function Unlisted<T(!new)>(items: seq<T>, manifest: seq<string>, idOf: T -> string): seq<T> {
    Filter(items, x => idOf(x) !in manifest)
  }

  /** Listed items first, then the rest as they were. */
  function Ordered<T(!new)>(items: seq<T>, manifest: seq<string>, idOf: T -> string): seq<T> {
    ItemsOf(Found(manifest, ById(items, idOf)), ById(items, idOf)) + Unlisted(items, manifest, idOf)
  }

  method ApplyManifestOrder<T(!new)>(items: seq<T>, manifest: seq<string>, idOf: T -> string) returns (ordered: seq<T>)
    ensures ordered == Ordered(items, manifest, idOf)
  {
    var byId := ById(items, idOf);
    var seen: set<string>;
    ordered, seen := TakeListed(manifest, byId);
    ghost var listed := ordered;
    for i := 0 to |items|
      invariant ordered == listed + Unlisted(items[..i], manifest, idOf)
    {
      assert items[..i + 1][..i] == items[..i];
      assert items[i] in items;
      if idOf(items[i]) !in seen {
        ordered := ordered + [items[i]];
      }
    }
    assert items[..|items|] == items;
  }

  /** The first loop: listed items, each once. */
  method TakeListed<T(!new)>(manifest: seq<string>, byId: map<string, T>) returns (ordered: seq<T>, seen: set<string>)
    ensures ordered == ItemsOf(Found(manifest, byId), byId)
    ensures forall k :: k in seen <==> k in manifest && k in byId
  {
    hide Found, ItemsOf;
    seen, ordered := {}, [];
    FoundNone(byId);
    for i := 0 to |manifest|
      invariant forall k :: k in seen <==> k in manifest[..i] && k in byId
      invariant ordered == ItemsOf(Found(manifest[..i], byId), byId)
    {
      var id := manifest[i];
      assert manifest[..i + 1] == manifest[..i] + [id];
      FoundOneMore(manifest[..i], id, byId);
      if id !in byId || id in seen {
        continue;
      }
      ItemsOneMore(Found(manifest[..i], byId), id, byId);
      seen := seen + {id};
      ordered := ordered + [byId[id]];
    }
    assert manifest[..|manifest|] == manifest;
  }

  lemma FoundNone<T(!new)>(m: map<string, T>)
    ensures ItemsOf(Found([], m), m) == []
  {
  }

  lemma ItemsOneMore<T(!new)>(ids: seq<string>, id: string, m: map<string, T>)
    requires id in m && forall k :: k in ids ==> k in m
    ensures ItemsOf(ids + [id], m) == ItemsOf(ids, m) + [m[id]]
  {
  }

  lemma FoundOneMore<T>(listed: seq<string>, id: string, m: map<string, T>)
    ensures Found(listed + [id], m) ==
            if id !in m || id in listed then Found(listed, m) else Found(listed, m) + [id]
  {
    assert (listed + [id])[..|listed|] == listed;
    var kept := Filter(listed, k => k in m);
    assert Filter(listed + [id], k => k in m) == if id in m then kept + [id] else kept;
    assert (kept + [id])[..|kept|] == kept;
  }

  // ----- permutation -----

  /** No id of the manifest is carried by two items. */
  ghost predicate ListedOnce<T(!new)>(items: seq<T>, manifest: seq<string>, idOf: T -> string) {
    forall i, j :: 0 <= i < j < |items| && idOf(items[i]) in manifest ==> idOf(items[i]) != idOf(items[j])
  }

  lemma {:induction false} CountListed<T(!new)>(items: seq<T>, manifest: seq<string>, idOf: T -> string, x: T)
    ensures var listed := multiset(ItemsOf(Found(manifest, ById(items, idOf)), ById(items, idOf)));
            listed[x] == if idOf(x) in manifest && x in items && ById(items, idOf)[idOf(x)] == x then 1 else 0
  {
    hide Found, ById;
    var ids, m := Found(manifest, ById(items, idOf)), ById(items, idOf);
    var listed := ItemsOf(ids, m);
    if idOf(x) in manifest && x in items && m[idOf(x)] == x {
      assert idOf(x) in ids;
      var k :| 0 <= k < |ids| && ids[k] == idOf(x);
      OnlyAt(listed, k);
    } else {
      assert x !in listed;
    }
  }

  lemma OnlyAt<T(!new)>(s: seq<T>, k: nat)
    requires k < |s| && forall i :: 0 <= i < |s| && i != k ==> s[i] != s[k]
    ensures multiset(s)[s[k]] == 1
  {
    assert s == s[..k] + ([s[k]] + s[k + 1..]);
    assert s[k] !in s[..k] && s[k] !in s[k + 1..];
    assert multiset(s) == multiset(s[..k]) + (multiset([s[k]]) + multiset(s[k + 1..]));
  }

  lemma CountOrdered<T(!new)>(items: seq<T>, manifest: seq<string>, idOf: T -> string, x: T)
    ensures multiset(Ordered(items, manifest, idOf))[x] ==
            if idOf(x) !in manifest then multiset(items)[x]
            else if x in items && ById(items, idOf)[idOf(x)] == x then 1 else 0
  {
    CountListed(items, manifest, idOf, x);
    FilterCounts(items, y => idOf(y) !in manifest, x);
  }

  lemma ListedOncePermutes<T(!new)>(items: seq<T>, manifest: seq<string>, idOf: T -> string)
    requires ListedOnce(items, manifest, idOf)
    ensures multiset(Ordered(items, manifest, idOf)) == multiset(items)
  {
    hide Ordered;
    forall x ensures multiset(Ordered(items, manifest, idOf))[x] == multiset(items)[x] {
      CountOrdered(items, manifest, idOf, x);
      if idOf(x) in manifest && x in items {
        var k :| 0 <= k < |items| && items[k] == x;
        OnlyAt(items, k);
        assert ById(items, idOf)[idOf(x)] in items;
      }
    }
  }

  lemma CountOfTwo<T>(s: seq<T>, i: nat, j: nat)
    requires i < j < |s|
    ensures multiset(s)[s[i]] >= 1 && multiset(s)[s[j]] >= 1 && (s[i] == s[j] ==> multiset(s)[s[i]] >= 2)
  {
    assert s == s[..j] + s[j..] && s[i] == s[..j][i] && s[j] == s[j..][0];
    assert multiset(s) == multiset(s[..j]) + multiset(s[j..]);
    assert s[i] in multiset(s[..j]) && s[j] in multiset(s[j..]);
  }

  /** Nothing is lost or repeated exactly when no listed id is carried by two items. */
  lemma {:induction false} OrderedIsPermutationIff<T(!new)>(items: seq<T>, manifest: seq<string>, idOf: T -> string)
    ensures multiset(Ordered(items, manifest, idOf)) == multiset(items) <==> ListedOnce(items, manifest, idOf)
  {
    hide Ordered;
    if ListedOnce(items, manifest, idOf) {
      ListedOncePermutes(items, manifest, idOf);
    } else {
      var i, j :| 0 <= i < j < |items| && idOf(items[i]) in manifest && idOf(items[i]) == idOf(items[j]);
      CountOrdered(items, manifest, idOf, items[i]);
      CountOrdered(items, manifest, idOf, items[j]);
      CountOfTwo(items, i, j);
    }
  }

  // ----- order -----

  /** Listed ids come out in the order the manifest first names them, and before every unlisted item. */
  lemma {:induction false} ListedComeFirst<T(!new)>(items: seq<T>, manifest: seq<string>, idOf: T -> string, i: nat, j: nat)
    requires i < j < |Ordered(items, manifest, idOf)|
    ensures var ordered := Ordered(items, manifest, idOf);
            idOf(ordered[j]) in manifest ==>
            exists at :: 0 <= at < |manifest| && manifest[at] == idOf(ordered[i]) && idOf(ordered[j]) !in manifest[..at + 1]
  {
    var m := ById(items, idOf);
    var ids, rest := Found(manifest, ById(items, idOf)), Unlisted(items, manifest, idOf);
    var ordered := Ordered(items, manifest, idOf);
    forall k | |ids| <= k < |ordered| ensures idOf(ordered[k]) !in manifest {
      assert ordered[k] == rest[k - |ids|] && rest[k - |ids|] in rest;
    }
    if idOf(ordered[j]) in manifest {
      assert ordered[i] == m[ids[i]] && ordered[j] == m[ids[j]];
      var kept := Filter(manifest, k => k in m);
      var a := UniqueKeepsFirsts(kept, i, j);
      var at := FilterPlace(manifest, k => k in m, a);
      assert ids[j] in m && ids[j] !in kept[..a + 1];
    }
  }

  /** Where a kept element stood, and what was kept up to there. */
  lemma {:induction false} FilterPlace<T(!new)>(s: seq<T>, keep: T -> bool, a: nat) returns (at: nat)
    requires a < |Filter(s, keep)|
    ensures at < |s| && s[at] == Filter(s, keep)[a] && Filter(s[..at + 1], keep) == Filter(s, keep)[..a + 1]
  {
    hide Filter;
    FilterStep(s, keep);
    var front := s[..|s| - 1];
    if a < |Filter(front, keep)| {
      at := FilterPlace(front, keep, a);
      assert front[..at + 1] == s[..at + 1];
      PrefixOfLonger(Filter(front, keep), if keep(s[|s| - 1]) then [s[|s| - 1]] else [], a + 1);
    } else {
      at := |s| - 1;
      assert s[..at + 1] == s && Filter(s, keep)[..a + 1] == Filter(s, keep);
    }
  }

  lemma FilterStep<T(!new)>(s: seq<T>, keep: T -> bool)
    ensures s == [] ==> Filter(s, keep) == []
    ensures s != [] ==>
              Filter(s, keep) == Filter(s[..|s| - 1], keep) + (if keep(s[|s| - 1]) then [s[|s| - 1]] else [])
  {
  }

  lemma PrefixOfLonger<T>(a: seq<T>, b: seq<T>, n: nat)
    requires n <= |a|
    ensures (a + b)[..n] == a[..n]
  {
  }

  /** In an ordered list a listed id belongs to one item, the one the map finds. */
  lemma OnlyFoundIsListed<T(!new)>(items: seq<T>, manifest: seq<string>, idOf: T -> string, y: T)
    requires y in Ordered(items, manifest, idOf) && idOf(y) in manifest
    ensures idOf(y) in ById(items, idOf) && y == ById(items, idOf)[idOf(y)]
  {
    var m := ById(items, idOf);
    var ids := Found(manifest, m);
    assert y in ItemsOf(ids, m) || y in Unlisted(items, manifest, idOf);
    var i :| 0 <= i < |ids| && ItemsOf(ids, m)[i] == y;
    assert ids[i] in ids;
  }

  lemma FoundIsOrdered<T(!new)>(items: seq<T>, manifest: seq<string>, idOf: T -> string, k: string)
    requires k in manifest && k in ById(items, idOf)
    ensures ById(items, idOf)[k] in Ordered(items, manifest, idOf)
  {
    var m := ById(items, idOf);
    var ids := Found(manifest, m);
    var i :| 0 <= i < |ids| && ids[i] == k;
    assert Ordered(items, manifest, idOf)[i] == ItemsOf(ids, m)[i] == m[k];
  }

  /** Ordering finds the same item under a listed id as before. */
  lemma FoundAgain<T(!new)>(items: seq<T>, manifest: seq<string>, idOf: T -> string, k: string)
    requires k in manifest
    ensures var m, again := ById(items, idOf), ById(Ordered(items, manifest, idOf), idOf);
            (k in again <==> k in m) && (k in m ==> again[k] == m[k])
  {
    var m, again := ById(items, idOf), ById(Ordered(items, manifest, idOf), idOf);
    if k in m {
      FoundIsOrdered(items, manifest, idOf, k);
      assert idOf(m[k]) in again;
    }
    if k in again {
      OnlyFoundIsListed(items, manifest, idOf, again[k]);
    }
  }

  /** The items found for a manifest depend only on what the map says of the manifest's ids. */
  lemma SameFound<T(!new)>(manifest: seq<string>, m: map<string, T>, n: map<string, T>)
    requires forall k :: k in manifest ==> (k in n <==> k in m) && (k in m ==> n[k] == m[k])
    ensures Found(manifest, n) == Found(manifest, m)
    ensures ItemsOf(Found(manifest, n), n) == ItemsOf(Found(manifest, m), m)
  {
    FilterAgrees(manifest, k => k in m, k => k in n);
    assert forall k :: k in Found(manifest, m) ==> k in manifest && n[k] == m[k];
  }

  lemma UnlistedAgain<T(!new)>(listed: seq<T>, items: seq<T>, manifest: seq<string>, idOf: T -> string)
    requires forall x :: x in listed ==> idOf(x) in manifest
    ensures Unlisted(listed + Unlisted(items, manifest, idOf), manifest, idOf) == Unlisted(items, manifest, idOf)
  {
    var rest := Unlisted(items, manifest, idOf);
    FilterConcat(listed, rest, x => idOf(x) !in manifest);
    FilterAll(listed, x => idOf(x) !in manifest);
    FilterAll(rest, x => idOf(x) !in manifest);
    assert [] + rest == rest;
  }

  /** Left to themselves, the items the manifest does not name are as they were, in number and order. */
  lemma UnlistedStay<T(!new)>(items: seq<T>, manifest: seq<string>, idOf: T -> string)
    ensures Filter(Ordered(items, manifest, idOf), x => idOf(x) !in manifest) == Filter(items, x => idOf(x) !in manifest)
  {
    var m := ById(items, idOf);
    ListedIdsAreListed(manifest, m, idOf);
    UnlistedAgain(ItemsOf(Found(manifest, m), m), items, manifest, idOf);
  }

  /** Applying an order twice changes nothing more. */
  lemma {:induction false} OrderedIsIdempotent<T(!new)>(items: seq<T>, manifest: seq<string>, idOf: T -> string)
    ensures Ordered(Ordered(items, manifest, idOf), manifest, idOf) == Ordered(items, manifest, idOf)
  {
    var m := ById(items, idOf);
    forall k | k in manifest
      ensures var again := ById(Ordered(items, manifest, idOf), idOf);
              (k in again <==> k in m) && (k in m ==> again[k] == m[k])
    {
      FoundAgain(items, manifest, idOf, k);
    }
    SameFound(manifest, m, ById(Ordered(items, manifest, idOf), idOf));
    ListedIdsAreListed(manifest, m, idOf);
    UnlistedAgain(ItemsOf(Found(manifest, m), m), items, manifest, idOf);
  }

  lemma ListedIdsAreListed<T(!new)>(manifest: seq<string>, m: map<string, T>, idOf: T -> string)
    requires forall k :: k in m ==> idOf(m[k]) == k
    ensures forall x :: x in ItemsOf(Found(manifest, m), m) ==> idOf(x) in manifest
  {
    var ids := Found(manifest, m);
    forall x | x in ItemsOf(ids, m) ensures idOf(x) in manifest {
      var i :| 0 <= i < |ids| && ItemsOf(ids, m)[i] == x;
      assert ids[i] in ids;
    }
  }

  // ----- writing an order and reading it back -----

  datatype Ticket = Ticket(id: string, open: bool, title: string)

  function TicketId(t: Ticket): string {
    t.id
  }

  function Open(tickets: seq<Ticket>): seq<Ticket> {
    Filter(tickets, (t: Ticket) => t.open)
  }

  function Closed(tickets: seq<Ticket>): seq<Ticket> {
    Filter(tickets, (t: Ticket) => !t.open)
  }

  function Shown(tickets: seq<Ticket>, manifest: Option<seq<string>>): seq<Ticket> {
    if manifest.None? then tickets else Ordered(Open(tickets), manifest.value, TicketId) + Closed(tickets)
  }

  /** What is shown are the open tickets in their order, then every closed ticket as it was read. */
  lemma ShownSplits(tickets: seq<Ticket>, manifest: seq<string>)
    ensures var shown := Shown(tickets, Some(manifest));
            && Filter(shown, (t: Ticket) => t.open) == Ordered(Filter(tickets, (t: Ticket) => t.open), manifest, TicketId)
            && Filter(shown, (t: Ticket) => !t.open) == Filter(tickets, (t: Ticket) => !t.open)
            && forall i, j :: 0 <= i < j < |shown| && shown[j].open ==> shown[i].open
  {
    hide Ordered, Filter;
    var ordered, closed := Ordered(Open(tickets), manifest, TicketId), Closed(tickets);
    OrderedHolds(Open(tickets), manifest, TicketId);
    FilterSides(ordered, closed, (t: Ticket) => t.open);
    FilterSides(ordered, closed, (t: Ticket) => !t.open);
    assert forall k :: 0 <= k < |ordered| ==> ordered[k] in ordered;
    assert forall k :: 0 <= k < |closed| ==> closed[k] in closed;
  }

  lemma FilterSides<T(!new)>(a: seq<T>, b: seq<T>, keep: T -> bool)
    ensures (forall x :: x in a ==> keep(x)) && (forall x :: x in b ==> !keep(x)) ==> Filter(a + b, keep) == a
    ensures (forall x :: x in a ==> !keep(x)) && (forall x :: x in b ==> keep(x)) ==> Filter(a + b, keep) == b
  {
    FilterConcat(a, b, keep);
    FilterAll(a, keep);
    FilterAll(b, keep);
    assert a + [] == a && [] + b == b;
  }

  lemma OrderedHolds<T(!new)>(items: seq<T>, manifest: seq<string>, idOf: T -> string)
    ensures forall x :: x in Ordered(items, manifest, idOf) ==> x in items
  {
  }

  function OpenIds(tickets: seq<Ticket>): set<string> {
    set t | t in Open(tickets) :: t.id
  }

  /** The requested ids that open tickets have, repeats and all. */
  function Writable(requested: seq<string>, valid: set<string>): seq<string> {
    Filter(requested, k => k in valid)
  }

  class TicketDirectory {
    var tickets: seq<Ticket>                 // in the order the files are read
    var manifest: Option<seq<string>>        // order.json, if it is a list of strings

    constructor (tickets: seq<Ticket>, manifest: Option<seq<string>>)
      ensures this.tickets == tickets && this.manifest == manifest
    {
      this.tickets, this.manifest := tickets, manifest;
    }

    /** The requested ids of open tickets become order.json, in the order and as often as requested. What
        is shown from then on is what the request itself, taken as the order, would show. */
    method WriteTicketOrder(requested: seq<string>) returns (order: seq<string>)
      modifies this`manifest
      ensures manifest == Some(order) && order == Writable(requested, OpenIds(tickets))
      ensures forall k :: multiset(order)[k] == if k in OpenIds(tickets) then multiset(requested)[k] else 0
      ensures Shown(tickets, manifest) == Shown(tickets, Some(requested))
    {
      var valid := OpenIds(tickets);
      order := [];
      for i := 0 to |requested|
        invariant order == Writable(requested[..i], valid)
      {
        assert requested[..i + 1][..i] == requested[..i];
        if requested[i] in valid {
          order := order + [requested[i]];
        }
      }
      assert requested[..|requested|] == requested;
      manifest := Some(order);
      forall k ensures multiset(order)[k] == if k in valid then multiset(requested)[k] else 0 {
        FilterCounts(requested, j => j in valid, k);
      }
      WriteThenRead(tickets, requested);
    }

    method ReadTickets() returns (shown: seq<Ticket>)
      ensures shown == Shown(tickets, manifest)
    {
      if manifest.None? {
        return tickets;
      }
      var open := Open(tickets);
      var closed := Closed(tickets);
      var ordered := ApplyManifestOrder(open, manifest.value, TicketId);
      shown := ordered + closed;
    }
  }

  /** Reading back a written order gives the requested open tickets, each once, in the order requested;
      then the other open tickets; then the closed ones: as if the request itself were the order. */
  lemma {:induction false} WriteThenRead(tickets: seq<Ticket>, requested: seq<string>)
    ensures var open := Open(tickets);
            var wanted := Unique(Writable(requested, OpenIds(tickets)));
            && (forall k :: k in wanted ==> k in ById(open, TicketId))
            && Shown(tickets, Some(Writable(requested, OpenIds(tickets)))) ==
               (ItemsOf(wanted, ById(open, TicketId)) + Unlisted(open, requested, TicketId)) + Closed(tickets)
    ensures Shown(tickets, Some(Writable(requested, OpenIds(tickets)))) == Shown(tickets, Some(requested))
  {
    var open := Open(tickets);
    var written := Writable(requested, OpenIds(tickets));
    WritableIsFound(open, written);
    UnlistedAgrees(open, written, requested, TicketId) by {
      assert forall t :: t in open ==> TicketId(t) in OpenIds(tickets);
    }
    var m := ById(open, TicketId);
    FilterAgrees(requested, k => k in OpenIds(tickets), k => k in m) by {
      assert forall t :: t in open ==> TicketId(t) in m;
    }
    assert Found(requested, m) == Unique(written);
  }

  lemma UnlistedAgrees<T(!new)>(items: seq<T>, a: seq<string>, b: seq<string>, idOf: T -> string)
    requires forall x :: x in items ==> (idOf(x) in a <==> idOf(x) in b)
    ensures Unlisted(items, a, idOf) == Unlisted(items, b, idOf)
  {
    FilterAgrees(items, x => idOf(x) !in a, x => idOf(x) !in b);
  }

  lemma WritableIsFound(open: seq<Ticket>, written: seq<string>)
    requires forall k :: k in written ==> exists t :: t in open && t.id == k
    ensures Found(written, ById(open, TicketId)) == Unique(written)
  {
    var m := ById(open, TicketId);
    forall k | k in written ensures k in m {
      var t :| t in open && t.id == k;
      assert TicketId(t) in m;
    }
    FilterAll(written, k => k in m);
  }
}
