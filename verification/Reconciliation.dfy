/** What a reconciliation of the ticket surfaces settles on (packages/core/src/tickets/reconcile.ts). */
module Reconciliation {
  import opened Outcomes
  import opened Sequences
  import opened Governance

  /** Two lists with nothing in common keep their firsts apart. */
  lemma {:induction false} UniqueOfBoth(a: seq<string>, b: seq<string>)
    requires forall k :: k in a ==> k !in b
    ensures Unique(a + b) == Unique(a) + Unique(b)
  {
    if b == [] {
      assert a + b == a;
    } else {
      var front, last := b[..|b| - 1], b[|b| - 1];
      assert (a + b)[..|a + b| - 1] == a + front;
      UniqueOfBoth(a, front);
      assert last in b;
    }
  }

  lemma UniqueKeepsBefore(s: seq<string>, i: nat, j: nat)
    requires i < j < |Unique(s)|
    ensures Before(s, Unique(s)[i], Unique(s)[j])
  {
    var at := UniqueKeepsFirsts(s, i, j);
  }

  /** The open tickets the order has, each at its first place. */
  function Had(d: Disk): (r: seq<string>)
    ensures Distinct(r) && forall k :: k in r <==> k in d.order && k in d.open
  {
    Unique(OpenOnly(d.order, d.open))
  }

  /** The open tickets it does not have, as listed. */
  function Missing(d: Disk, listing: seq<string>): (r: seq<string>)
    ensures Distinct(r) && forall k :: k in r <==> k in listing && k !in d.order && k in d.open
  {
    Unique(OpenOnly(Filter(listing, k => k !in d.order), d.open))
  }

  lemma SettledSplits(d: Disk, listing: seq<string>)
    ensures Settled(d, listing) == Had(d) + Missing(d, listing)
  {
    UniqueOfBoth(OpenOnly(d.order, d.open), OpenOnly(Filter(listing, k => k !in d.order), d.open));
  }

  lemma HadAsOrdered(d: Disk, i: nat, j: nat)
    requires i < j < |Had(d)|
    ensures Before(d.order, Had(d)[i], Had(d)[j])
  {
    UniqueKeepsBefore(OpenOnly(d.order, d.open), i, j);
    assert Had(d)[j] in Had(d);
    FilterKeepsBefore(d.order, k => k in d.open, Had(d)[i], Had(d)[j]);
  }

  lemma MissingAsListed(d: Disk, listing: seq<string>, i: nat, j: nat)
    requires i < j < |Missing(d, listing)|
    ensures Before(listing, Missing(d, listing)[i], Missing(d, listing)[j])
  {
    var rest, x, y := Filter(listing, k => k !in d.order), Missing(d, listing)[i], Missing(d, listing)[j];
    UniqueKeepsBefore(OpenOnly(rest, d.open), i, j);
    assert y in Missing(d, listing);
    FilterKeepsBefore(rest, k => k in d.open, x, y);
    FilterKeepsBefore(listing, k => k !in d.order, x, y);
  }

  /** The order settled on names every open ticket once: first those the order had, as it first had them, then
      the others as listed. */
  lemma SettledOrder(d: Disk, listing: seq<string>) returns (n: nat)
    requires forall k :: k in listing <==> k in d.open
    ensures var r := Settled(d, listing);
            && Distinct(r) && (forall k :: k in r <==> k in d.open)
            && n <= |r| && (forall i :: 0 <= i < |r| ==> (r[i] in d.order <==> i < n))
            && (forall i, j :: 0 <= i < j < n ==> Before(d.order, r[i], r[j]))
            && (forall i, j :: n <= i < j < |r| ==> Before(listing, r[i], r[j]))
  {
    hide Had, Missing, Settled, Before;
    SettledSplits(d, listing);
    var r, had, missing := Settled(d, listing), Had(d), Missing(d, listing);
    n := |had|;
    forall i | 0 <= i < |r| ensures r[i] == if i < n then had[i] else missing[i - n]
                            ensures r[i] in d.order <==> i < n {
      if i < n {
        assert had[i] in had;
      } else {
        assert missing[i - n] in missing;
      }
    }
    forall i, j | 0 <= i < j < n ensures Before(d.order, r[i], r[j]) {
      HadAsOrdered(d, i, j);
    }
    forall i, j | n <= i < j < |r| ensures Before(listing, r[i], r[j]) {
      MissingAsListed(d, listing, i - n, j - n);
    }
  }

  /** An unbroken reconciliation over a full listing: order and open rows name every open ticket once, the
      order's own first as it first had them, the others as listed; every row has its file's priority; nothing
      else changes. */
  lemma ReconciledNamesOpenOnce(d: Disk, listing: seq<string>) returns (n: nat)
    requires forall k :: k in listing <==> k in d.open
    ensures var done := ReconcileTickets(d, listing, Nowhere);
            var order, rows := done.disk.order, done.disk.index.open;
            && done.error.None?
            && Distinct(order) && (forall k :: k in order <==> k in d.open)
            && |rows| == |order|
            && (forall i :: 0 <= i < |order| ==> rows[i].id == order[i] && rows[i].home == d.open[order[i]].home)
            && n <= |order| && (forall i :: 0 <= i < |order| ==> (order[i] in d.order <==> i < n))
            && (forall i, j :: 0 <= i < j < n ==> Before(d.order, order[i], order[j]))
            && (forall i, j :: n <= i < j < |order| ==> Before(listing, order[i], order[j]))
            && done.disk == d.(order := order, index := d.index.(open := rows))
  {
    hide Settled, Before;
    n := SettledOrder(d, listing);
  }

  /** Reconciling again changes nothing. */
  lemma ReconciledIsSettled(d: Disk, listing: seq<string>)
    requires forall k :: k in listing <==> k in d.open
    ensures var once := ReconcileTickets(d, listing, Nowhere).disk;
            ReconcileTickets(once, listing, Nowhere) == Applied(once, None)
  {
    hide Distinct, OpenOnly, Before;
    var n := SettledOrder(d, listing);
    var r := Settled(d, listing);
    SettledAgain(d.(order := r, index := SettledIndex(d, listing)), listing);
  }

  lemma SettledAgain(d: Disk, listing: seq<string>)
    requires Distinct(d.order) && forall k :: k in d.order <==> k in d.open
    requires forall k :: k in listing <==> k in d.open
    ensures Settled(d, listing) == d.order
  {
    FilterAll(d.order, k => k in d.open);
    FilterAll(listing, k => k !in d.order);
    assert OpenOnly([], d.open) == [];
    assert d.order + [] == d.order;
    UniqueOfDistinct(d.order);
  }
}
