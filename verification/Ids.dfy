/** Ticket numbers and queue ids (packages/daemon/src/authoring-queue.ts). */
module Ids {

  function Digit(d: nat): char
    requires d < 10
  {
    "0123456789"[d]
  }

  function DigitValue(c: char): nat {
    if '0' <= c <= '9' then (c as int) - ('0' as int) else 0
  }

  /** `String(n)`. */
  function Decimal(n: nat): (s: string)
    ensures s != ""
  {
    if n < 10 then [Digit(n)] else Decimal(n / 10) + [Digit(n % 10)]
  }

  function Zeros(k: nat): (s: string)
    ensures |s| == k
  {
    if k == 0 then "" else "0" + Zeros(k - 1)
  }

  /** `String(n).padStart(4, '0')`. */
  function Pad4(n: nat): string {
    var s := Decimal(n);
    if |s| >= 4 then s else Zeros(4 - |s|) + s
  }

  /** The number a run of digits spells, leading zeros and all. */
  function ValueOf(s: string): nat {
    if s == "" then 0 else 10 * ValueOf(s[..|s| - 1]) + DigitValue(s[|s| - 1])
  }

  lemma {:induction false} DecimalSpells(n: nat)
    ensures ValueOf(Decimal(n)) == n
  {
    if n < 10 {
      assert [Digit(n)][..0] == "";
    } else {
      DecimalSpells(n / 10);
      assert (Decimal(n / 10) + [Digit(n % 10)])[..|Decimal(n / 10)|] == Decimal(n / 10);
    }
  }

  lemma {:induction false} ZerosAddNothing(k: nat, s: string)
    ensures ValueOf(Zeros(k) + s) == ValueOf(s)
    decreases |s|, k
  {
    if s != "" {
      assert (Zeros(k) + s)[..|Zeros(k) + s| - 1] == Zeros(k) + s[..|s| - 1];
      ZerosAddNothing(k, s[..|s| - 1]);
    } else if k > 0 {
      ZerosSnoc(k - 1);
      assert Zeros(k)[..k - 1] == Zeros(k - 1);
      ZerosAddNothing(k - 1, "");
      assert Zeros(k) + "" == Zeros(k) && Zeros(k - 1) + "" == Zeros(k - 1);
    }
  }

  lemma {:induction false} ZerosSnoc(k: nat)
    ensures Zeros(k + 1) == Zeros(k) + "0"
  {
    if k > 0 {
      ZerosSnoc(k - 1);
    }
  }

  /** Padding loses nothing: different numbers have different padded ids. */
  lemma Pad4Injective(m: nat, n: nat)
    requires Pad4(m) == Pad4(n)
    ensures m == n
  {
    Pad4Spells(m);
    Pad4Spells(n);
  }

  predicate AllDigits(s: string) {
    forall i :: 0 <= i < |s| ==> '0' <= s[i] <= '9'
  }

  lemma {:induction false} DecimalDigits(n: nat)
    ensures AllDigits(Decimal(n))
  {
    if n >= 10 {
      DecimalDigits(n / 10);
    }
  }

  lemma {:induction false} ZerosDigits(k: nat)
    ensures AllDigits(Zeros(k))
  {
    if k > 0 {
      ZerosDigits(k - 1);
    }
  }

  /** A padded id is four digits or more that spell its number. */
  lemma Pad4Spells(n: nat)
    ensures |Pad4(n)| >= 4 && AllDigits(Pad4(n)) && ValueOf(Pad4(n)) == n
  {
    DecimalSpells(n);
    DecimalDigits(n);
    ZerosDigits(if |Decimal(n)| < 4 then 4 - |Decimal(n)| else 0);
    if |Decimal(n)| < 4 {
      ZerosAddNothing(4 - |Decimal(n)|, Decimal(n));
    }
  }

  /** The least padded id at or above `base` that is not held. */
  method NextIdAfter(base: nat, heldIds: set<string>) returns (id: string, ghost number: nat)
    ensures base <= number && id == Pad4(number) && id !in heldIds
    ensures forall k :: base <= k < number ==> Pad4(k) in heldIds
  {
    var n := base;
    ghost var ahead := heldIds;
    while Pad4(n) in heldIds
      invariant base <= n && forall k :: base <= k < n ==> Pad4(k) in heldIds
      invariant ahead <= heldIds
      invariant forall k: nat :: n <= k && Pad4(k) in heldIds ==> Pad4(k) in ahead
      decreases ahead
    {
      ghost var passed := Pad4(n);
      forall k: nat | n < k && Pad4(k) in heldIds ensures Pad4(k) in ahead - {passed} {
        if Pad4(k) == passed {
          Pad4Injective(k, n);
        }
      }
      assert passed in ahead;
      ahead := ahead - {passed};
      n := n + 1;
    }
    return Pad4(n), n;
  }

  function Numbered(base: string, n: nat): string {
    base + "-" + Decimal(n)
  }

  lemma NumberedInjective(base: string, m: nat, n: nat)
    requires Numbered(base, m) == Numbered(base, n)
    ensures m == n
  {
    assert Numbered(base, m)[|base| + 1..] == Decimal(m);
    assert Numbered(base, n)[|base| + 1..] == Decimal(n);
    DecimalSpells(m);
    DecimalSpells(n);
  }

  /** `base` if it is free, else `base-n` with the least free n from 2 on. */
  method UniqueQueuedId(base: string, held: set<string>) returns (id: string, ghost number: nat)
    ensures id !in held
    ensures base !in held ==> id == base
    ensures base in held ==> number >= 2 && id == Numbered(base, number)
                             && forall k :: 2 <= k < number ==> Numbered(base, k) in held
  {
    if base !in held {
      return base, 2;
    }
    var n := 2;
    ghost var ahead := held;
    while Numbered(base, n) in held
      invariant 2 <= n && forall k :: 2 <= k < n ==> Numbered(base, k) in held
      invariant ahead <= held
      invariant forall k: nat :: n <= k && Numbered(base, k) in held ==> Numbered(base, k) in ahead
      decreases ahead
    {
      ghost var passed := Numbered(base, n);
      forall k: nat | n < k && Numbered(base, k) in held ensures Numbered(base, k) in ahead - {passed} {
        if Numbered(base, k) == passed {
          NumberedInjective(base, k, n);
        }
      }
      assert passed in ahead;
      ahead := ahead - {passed};
      n := n + 1;
    }
    return Numbered(base, n), n;
  }
}
