/** JavaScript string operations the daemon's parsers lean on. */
module Text {

  /** The characters `trim` and `\s` treat as blank: white space and line terminators of ECMAScript. */
  predicate Blank(c: char) {
    || c == '\t' || c == '\n' || c == '\U{000B}' || c == '\U{000C}' || c == '\r' || c == ' '
    || c == '\U{00A0}' || c == '\U{1680}' || '\U{2000}' <= c <= '\U{200A}'
    || c == '\U{2028}' || c == '\U{2029}' || c == '\U{202F}' || c == '\U{205F}' || c == '\U{3000}'
    || c == '\U{FEFF}'
  }

  predicate AllBlank(s: string) {
    forall i :: 0 <= i < |s| ==> Blank(s[i])
  }

  /** `toLowerCase`, for ASCII letters. */
  function Lower(s: string): string {
    seq(|s|, i requires 0 <= i < |s| =>
      if 'A' <= s[i] <= 'Z' then ((s[i] as int) - ('A' as int) + ('a' as int)) as char else s[i])
  }

  /** The capitals 65 to 90 become the letters 32 further on; nothing else changes. */
  lemma LowerAt(s: string, i: nat)
    requires i < |s|
    ensures |Lower(s)| == |s| && Lower(s)[i] as int == s[i] as int + if 65 <= s[i] as int <= 90 then 32 else 0
  {
  }

  function TrimStart(s: string): string {
    if s != "" && Blank(s[0]) then TrimStart(s[1..]) else s
  }

  function TrimEnd(s: string): string {
    if s != "" && Blank(s[|s| - 1]) then TrimEnd(s[..|s| - 1]) else s
  }

  function Trim(s: string): string {
    TrimEnd(TrimStart(s))
  }

  /** Neither end is blank. */
  predicate Trimmed(s: string) {
    s == "" || (!Blank(s[0]) && !Blank(s[|s| - 1]))
  }

  lemma TrimOfTrimmed(s: string)
    requires Trimmed(s)
    ensures Trim(s) == s
  {
  }

  /** `trim` removes blanks only: what is left is trimmed and stands inside the original. */
  lemma {:induction false} TrimSplits(s: string)
    ensures Trimmed(Trim(s))
    ensures exists a, b :: s == a + Trim(s) + b && AllBlank(a) && AllBlank(b)
  {
    var mid, a := TrimStartSplits(s);
    var b := TrimEndSplits(mid);
    assert s == a + Trim(s) + b;
  }

  lemma {:induction false} TrimStartSplits(s: string) returns (rest: string, a: string)
    ensures rest == TrimStart(s) && s == a + rest && AllBlank(a)
    ensures rest == "" || !Blank(rest[0])
  {
    rest, a := s, "";
    if s != "" && Blank(s[0]) {
      rest, a := TrimStartSplits(s[1..]);
      a := [s[0]] + a;
    }
  }

  lemma {:induction false} TrimEndSplits(s: string) returns (b: string)
    ensures s == TrimEnd(s) + b && AllBlank(b)
    ensures TrimEnd(s) == "" || !Blank(TrimEnd(s)[|TrimEnd(s)| - 1])
  {
    b := "";
    if s != "" && Blank(s[|s| - 1]) {
      b := TrimEndSplits(s[..|s| - 1]);
      b := b + [s[|s| - 1]];
    }
  }

  lemma {:induction false} TrimOfBlank(s: string)
    ensures Trim(s) == "" <==> AllBlank(s)
  {
    var mid, a := TrimStartSplits(s);
    var b := TrimEndSplits(mid);
    if Trim(s) != "" {
      assert s[|a|] == mid[0] && mid[0] == Trim(s)[0];
    }
  }
}
