/** What the brace scanner guarantees about real JSON objects standing in arbitrary prose. */
module JsonScanTheorems {
  import opened Outcomes
  import opened JsonText
  import opened JsonScan

  // ----- reading in pieces -----

  lemma {:induction false} ReadSplit(r: Reading, at: nat, a: string, b: string)
    ensures Read(r, at, a + b) == Read(Read(r, at, a), at + |a|, b)
    decreases |b|
  {
    if b == "" {
      assert a + b == a;
    } else {
      var init := b[..|b| - 1];
      assert (a + b)[..|a + b| - 1] == a + init;
      ReadSplit(r, at, a, init);
    }
  }

  predicate Quiet(w: string) {
    '"' !in w && '{' !in w && '}' !in w
  }

  /** Text without quotes or braces changes nothing inside an object. */
  lemma {:induction false} QuietRead(r: Reading, at: nat, w: string)
    requires Quiet(w)
    requires r.cursor.Inside? && !r.cursor.inString
    ensures Read(r, at, w) == r
  {
    if w != "" {
      QuietRead(r, at, w[..|w| - 1]);
      assert w[|w| - 1] in w;
    }
  }

  /** Text without an opening brace changes nothing outside every object. */
  lemma {:induction false} ProseRead(r: Reading, at: nat, w: string)
    requires '{' !in w && r.cursor.Outside?
    ensures Read(r, at, w) == r
  {
    if w != "" {
      ProseRead(r, at, w[..|w| - 1]);
      assert w[|w| - 1] in w;
    }
  }

  predicate InObject(r: Reading) {
    r.cursor.Inside? && r.cursor.depth >= 1 && !r.cursor.inString && !r.cursor.escaped
  }

  function Quoted(r: Reading): Reading
    requires InObject(r)
  {
    r.(cursor := Inside(r.cursor.start, r.cursor.depth, true, false))
  }

  lemma {:induction false} UnitRead(r: Reading, at: nat, u: StringUnit)
    requires InObject(r) && UnitOk(u)
    ensures Read(Quoted(r), at, UnitText(u)) == Quoted(r)
  {
    var q := Quoted(r);
    match u
    case Plain(c) =>
      assert [c][..0] == "";
    case Escape(code) =>
      ReadSplit(q, at, "\\", code);
      assert "\\"[..0] == "";
      var escaped := q.(cursor := Inside(r.cursor.start, r.cursor.depth, true, true));
      assert Read(q, at, "\\") == escaped;
      ReadSplit(escaped, at + 1, code[..1], code[1..]);
      assert code == code[..1] + code[1..];
      assert code[..1][..0] == "";
      assert Read(escaped, at + 1, code[..1]) == q;
      HexRead(q, at + 2, code[1..]);
  }

  lemma {:induction false} HexRead(q: Reading, at: nat, w: string)
    requires q.cursor.Inside? && q.cursor.inString && !q.cursor.escaped
    requires forall i :: 0 <= i < |w| ==> HexDigit(w[i])
    ensures Read(q, at, w) == q
  {
    if w != "" {
      HexRead(q, at, w[..|w| - 1]);
      assert HexDigit(w[|w| - 1]);
    }
  }

  lemma {:induction false} UnitsRead(r: Reading, at: nat, us: seq<StringUnit>)
    requires InObject(r) && UnitsOk(us)
    ensures Read(Quoted(r), at, UnitsText(us)) == Quoted(r)
    decreases |us|
  {
    if us != [] {
      ReadSplit(Quoted(r), at, UnitText(us[0]), UnitsText(us[1..]));
      UnitRead(r, at, us[0]);
      UnitsRead(r, at + |UnitText(us[0])|, us[1..]);
    }
  }

  /** A string literal, whatever braces, quotes and escapes it holds, leaves the scanner where it was. */
  lemma {:induction false} StringRead(r: Reading, at: nat, us: seq<StringUnit>)
    requires InObject(r) && UnitsOk(us)
    ensures Read(r, at, StringText(us)) == r
  {
    ReadSplit(r, at, "\"" + UnitsText(us), "\"");
    ReadSplit(r, at, "\"", UnitsText(us));
    assert "\""[..0] == "";
    assert Read(r, at, "\"") == Quoted(r);
    UnitsRead(r, at + 1, us);
  }

  lemma QuietDigits(s: string)
    requires Digits(s)
    ensures Quiet(s)
  {
  }

  lemma QuietJoin(a: string, b: string)
    requires Quiet(a) && Quiet(b)
    ensures Quiet(a + b)
  {
  }

  lemma QuietNumber(n: Number)
    requires NumberOk(n)
    ensures Quiet(NumberText(n))
  {
    hide Quiet;
    var sign := if n.minus then "-" else "";
    var fraction := if n.fraction.Some? then "." + n.fraction.value else "";
    QuietMark(sign);
    QuietDigits(n.digits);
    QuietJoin(sign, n.digits);
    QuietMark("");
    if n.fraction.Some? {
      QuietMark(".");
      QuietDigits(n.fraction.value);
      QuietJoin(".", n.fraction.value);
    }
    QuietJoin(sign + n.digits, fraction);
    if n.exponent.Some? {
      var e := n.exponent.value;
      QuietMark([e.mark]);
      QuietMark(e.sign);
      QuietDigits(e.digits);
      QuietJoin([e.mark], e.sign);
      QuietJoin([e.mark] + e.sign, e.digits);
      QuietJoin(sign + n.digits + fraction, [e.mark] + e.sign + e.digits);
    } else {
      QuietJoin(sign + n.digits + fraction, "");
    }
  }

  lemma QuietMark(s: string)
    requires s in ["", "-", "+", ".", "e", "E"]
    ensures Quiet(s)
  {
  }

  /** Reading `w`, wherever it stands, leaves the scanner as it was. */
  ghost predicate Neutral(r: Reading, w: string) {
    forall at: nat :: Read(r, at, w) == r
  }

  lemma {:induction false} NeutralJoin(r: Reading, a: string, b: string)
    requires Neutral(r, a) && Neutral(r, b)
    ensures Neutral(r, a + b)
  {
    forall at: nat ensures Read(r, at, a + b) == r {
      ReadSplit(r, at, a, b);
    }
  }

  lemma NeutralQuiet(r: Reading, w: string)
    requires InObject(r) && Quiet(w)
    ensures Neutral(r, w)
  {
    forall at: nat ensures Read(r, at, w) == r {
      QuietRead(r, at, w);
    }
  }

  lemma NeutralString(r: Reading, us: seq<StringUnit>)
    requires InObject(r) && UnitsOk(us)
    ensures Neutral(r, StringText(us))
  {
    forall at: nat ensures Read(r, at, StringText(us)) == r {
      StringRead(r, at, us);
    }
  }

  /** Any JSON value read inside an object leaves the scanner exactly where it was. */
  lemma {:induction false} ValueNeutral(r: Reading, v: Json)
    requires InObject(r) && WellFormed(v)
    ensures Neutral(r, Text(v))
    decreases v
  {
    match v
    case True => NeutralQuiet(r, Text(v));
    case False => NeutralQuiet(r, Text(v));
    case Null => NeutralQuiet(r, Text(v));
    case Num(n) =>
      QuietNumber(n);
      NeutralQuiet(r, Text(v));
    case Str(us) => NeutralString(r, us);
    case Arr(gap, items) =>
      NeutralQuiet(r, "[" + gap);
      ItemsNeutral(r, items);
      NeutralQuiet(r, "]");
      NeutralJoin(r, "[" + gap, ItemsText(items));
      NeutralJoin(r, "[" + gap + ItemsText(items), "]");
    case Obj(gap, members) =>
      forall at: nat ensures Read(r, at, Text(v)) == r {
        var inner := r.(cursor := Inside(r.cursor.start, r.cursor.depth + 1, false, false));
        BodyNeutral(inner, v);
        BracesRead(r, inner, at, v);
      }
  }

  function Body(o: Json): string
    requires o.Obj?
  {
    o.gap + MembersText(o.members)
  }

  lemma {:induction false} BodyNeutral(r: Reading, o: Json)
    requires o.Obj? && InObject(r) && WellFormed(o)
    ensures Neutral(r, Body(o))
    decreases o, 0
  {
    NeutralQuiet(r, o.gap);
    MembersNeutral(r, o.members);
    NeutralJoin(r, o.gap, MembersText(o.members));
  }

  /** The braces around a neutral body open at the first character and close at the last. */
  lemma {:induction false} BracesRead(r: Reading, inner: Reading, at: nat, o: Json)
    requires o.Obj? && InObject(inner) && Step(r, at, '{') == inner && Neutral(inner, Body(o))
    ensures Text(o) != "" && Read(r, at, Text(o)) == Step(inner, at + |Text(o)| - 1, '}')
  {
    var text := Text(o);
    assert text == ("{" + Body(o)) + "}";
    assert text[..|text| - 1] == "{" + Body(o);
    ReadSplit(r, at, "{", Body(o));
    assert "{"[..0] == "";
    assert Read(r, at, "{") == inner;
  }

  lemma {:induction false} ItemsNeutral(r: Reading, items: Items)
    requires InObject(r) && ItemsOk(items)
    ensures Neutral(r, ItemsText(items))
    decreases items
  {
    match items
    case NoItems => NeutralQuiet(r, "");
    case Item(b, v, a, rest) =>
      var tail := if rest.NoItems? then "" else "," + ItemsText(rest);
      NeutralQuiet(r, b);
      ValueNeutral(r, v);
      NeutralQuiet(r, a);
      NeutralJoin(r, b, Text(v));
      NeutralJoin(r, b + Text(v), a);
      if rest.NoItems? {
        NeutralQuiet(r, tail);
      } else {
        ItemsNeutral(r, rest);
        NeutralQuiet(r, ",");
        NeutralJoin(r, ",", ItemsText(rest));
      }
      NeutralJoin(r, b + Text(v) + a, tail);
  }

  lemma {:induction false} MembersNeutral(r: Reading, members: Members)
    requires InObject(r) && MembersOk(members)
    ensures Neutral(r, MembersText(members))
    decreases members
  {
    match members
    case NoMembers => NeutralQuiet(r, "");
    case Member(b, key, m, l, v, a, rest) =>
      var tail := if rest.NoMembers? then "" else "," + MembersText(rest);
      var name := b + StringText(key);
      NeutralQuiet(r, b);
      NeutralString(r, key);
      NeutralJoin(r, b, StringText(key));
      NeutralQuiet(r, m);
      NeutralJoin(r, name, m);
      NeutralQuiet(r, ":");
      NeutralJoin(r, name + m, ":");
      NeutralQuiet(r, l);
      NeutralJoin(r, name + m + ":", l);
      ValueNeutral(r, v);
      NeutralJoin(r, name + m + ":" + l, Text(v));
      NeutralQuiet(r, a);
      NeutralJoin(r, name + m + ":" + l + Text(v), a);
      if rest.NoMembers? {
        NeutralQuiet(r, tail);
      } else {
        MembersNeutral(r, rest);
        NeutralQuiet(r, ",");
        NeutralJoin(r, ",", MembersText(rest));
      }
      NeutralJoin(r, name + m + ":" + l + Text(v) + a, tail);
  }

  /** Read between objects, an object text is found whole and leaves the scanner between objects. */
  lemma {:induction false} ObjectRead(r: Reading, at: nat, o: Json)
    requires r.cursor.Outside? && o.Obj? && WellFormed(o)
    ensures Text(o) != "" && Read(r, at, Text(o)) == Reading(Outside, r.spans + [Span(at, at + |Text(o)|)])
  {
    hide Read, Body, WellFormed;
    var inner := r.(cursor := Inside(at, 1, false, false));
    BodyNeutral(inner, o);
    BracesRead(r, inner, at, o);
  }

  // ----- the text after an object is read as if it stood alone -----

  function ShiftSpans(spans: seq<Span>, n: nat): (r: seq<Span>)
    ensures |r| == |spans|
  {
    seq(|spans|, k requires 0 <= k < |spans| => Span(spans[k].from + n, spans[k].to + n))
  }

  function ShiftCursor(c: Cursor, n: nat): Cursor {
    if c.Outside? then c else c.(start := c.start + n)
  }

  function Shifted(found: seq<Span>, r: Reading, n: nat): Reading {
    Reading(ShiftCursor(r.cursor, n), found + ShiftSpans(r.spans, n))
  }

  lemma StepShifted(found: seq<Span>, r: Reading, n: nat, i: nat, c: char)
    ensures Step(Shifted(found, r, n), i + n, c) == Shifted(found, Step(r, i, c), n)
  {
    var next := Step(r, i, c);
    if |next.spans| > |r.spans| {
      var last := Span(r.cursor.start, i + 1);
      assert ShiftSpans(r.spans + [last], n) == ShiftSpans(r.spans, n) + [Span(last.from + n, last.to + n)];
    }
  }

  lemma {:induction false} ReadShifted(found: seq<Span>, n: nat, q: string)
    ensures Read(Reading(Outside, found), n, q) == Shifted(found, Read(START, 0, q), n)
    decreases |q|
  {
    hide Step;
    if q == "" {
      assert found + ShiftSpans([], n) == found;
    } else {
      var init := q[..|q| - 1];
      ReadShifted(found, n, init);
      StepShifted(found, Read(START, 0, init), n, |q| - 1, q[|q| - 1]);
    }
  }

  // ----- main results -----

  /** A candidate can only begin where the text before it has been settled. */
  lemma {:induction false} StartsSettled(text: string, k: nat)
    requires k < |Spans(text)|
    ensures Spans(text)[k].from <= |text| && Settled(text[..Spans(text)[k].from])
    decreases |text|
  {
    SpansOrdered(text);
    var n := |text| - 1;
    var init := text[..n];
    var before := Read(START, 0, init);
    SpansOrdered(init);
    if k < |before.spans| {
      StartsSettled(init, k);
      assert text[..before.spans[k].from] == init[..before.spans[k].from];
    } else {
      OpenedSettled(init);
      assert text[..before.cursor.start] == init[..before.cursor.start];
    }
  }

  lemma {:induction false} OpenedSettled(text: string)
    ensures var c := Read(START, 0, text).cursor; c.Inside? ==> c.start <= |text| && Settled(text[..c.start])
    decreases |text|
  {
    if text != "" {
      var n := |text| - 1;
      var init := text[..n];
      OpenedSettled(init);
      var before := Read(START, 0, init).cursor;
      if before.Inside? {
        assert text[..before.start] == init[..before.start];
      }
    }
  }

  /** `j`, read after `p`, is found whole and closes. */
  predicate FoundWhole(p: string, j: string) {
    j != "" && Read(Read(START, 0, p), |p|, j) == Reading(Outside, Spans(p) + [Span(|p|, |p| + |j|)])
  }

  lemma {:induction false} SpansAround(p: string, j: string, q: string)
    requires FoundWhole(p, j)
    ensures Spans(p + j + q) == Spans(p) + [Span(|p|, |p| + |j|)] + ShiftSpans(Spans(q), |p| + |j|)
  {
    ReadSplit(START, 0, p, j);
    ReadSplit(START, 0, p + j, q);
    ReadShifted(Spans(p) + [Span(|p|, |p| + |j|)], |p| + |j|, q);
  }

  lemma {:induction false} CandidatesAround(p: string, j: string, q: string)
    requires FoundWhole(p, j)
    ensures Span(|p|, |p| + |j|) in Spans(p + j + q)
    ensures Candidates(p + j + q) == Candidates(p) + [j] + Candidates(q)
  {
    SpansAround(p, j, q);
    assert Spans(p + j + q)[|Spans(p)|] == Span(|p|, |p| + |j|);
    SpansOrdered(p);
    SpansOrdered(q);
    SliceParts(p, j, q, Spans(p), Spans(q));
  }

  lemma {:induction false} FoundOnlySettled(p: string, rest: string, to: nat)
    requires Span(|p|, to) in Spans(p + rest)
    ensures Settled(p)
  {
    var text := p + rest;
    var k :| 0 <= k < |Spans(text)| && Spans(text)[k] == Span(|p|, to);
    StartsSettled(text, k);
    assert text[..|p|] == p;
  }

  /** An object text standing after `p` is reported at its own place exactly when `p` leaves
      no brace open; and then what comes before and after is reported as if it stood alone. */
  lemma {:induction false} ObjectFoundIffSettled(p: string, o: Json, q: string)
    requires o.Obj? && WellFormed(o)
    ensures Settled(p) <==> Span(|p|, |p| + |Text(o)|) in Spans(p + Text(o) + q)
    ensures Settled(p) ==> Candidates(p + Text(o) + q) == Candidates(p) + [Text(o)] + Candidates(q)
  {
    hide Read, Candidates, Text, WellFormed;
    var j := Text(o);
    if Settled(p) {
      ObjectRead(Read(START, 0, p), |p|, o);
      CandidatesAround(p, j, q);
    } else if Span(|p|, |p| + |j|) in Spans(p + j + q) {
      assert p + j + q == p + (j + q);
      FoundOnlySettled(p, j + q, |p| + |j|);
    }
  }

  lemma SliceParts(p: string, j: string, q: string, left: seq<Span>, right: seq<Span>)
    requires SpansWithin(left, |p|) && SpansWithin(right, |q|) && j != ""
    ensures var n := |p| + |j|;
            var spans := left + [Span(|p|, n)] + ShiftSpans(right, n);
            && SpansWithin(spans, |p + j + q|)
            && Slices(p + j + q, spans) == Slices(p, left) + [j] + Slices(q, right)
  {
    var n := |p| + |j|;
    var text := p + j + q;
    var spans := left + [Span(|p|, n)] + ShiftSpans(right, n);
    forall k | 0 <= k < |spans|
      ensures spans[k].from < spans[k].to <= |text|
      ensures text[spans[k].from..spans[k].to] == (Slices(p, left) + [j] + Slices(q, right))[k]
    {
      if k < |left| {
        assert text[left[k].from..left[k].to] == p[left[k].from..left[k].to];
      } else if k > |left| {
        var s := right[k - |left| - 1];
        assert text[s.from + n..s.to + n] == q[s.from..s.to];
      }
    }
  }

  /** In prose without an opening brace, a JSON object is the first candidate, found whole. */
  lemma ObjectInProse(p: string, o: Json, q: string)
    requires '{' !in p && o.Obj? && WellFormed(o)
    ensures Candidates(p + Text(o) + q) == [Text(o)] + Candidates(q)
  {
    ProseRead(START, 0, p);
    ObjectFoundIffSettled(p, o, q);
  }

  /** An unclosed brace in the prose swallows the object that follows. */
  lemma UnclosedBraceHidesObject()
    ensures WellFormed(Obj("", NoMembers)) && !Settled("{ ") && Candidates("{ " + Text(Obj("", NoMembers))) == []
  {
    var text := "{ {}";
    assert text == "{ " + Text(Obj("", NoMembers));
    assert Read(START, 0, "{") == Reading(Inside(0, 1, false, false), []) by { assert "{"[..0] == ""; }
    assert Read(START, 0, "{ ") == Reading(Inside(0, 1, false, false), []) by { assert "{ "[..1] == "{"; }
    assert Read(START, 0, "{ {") == Reading(Inside(0, 2, false, false), []) by { assert "{ {"[..2] == "{ "; }
    assert Read(START, 0, text) == Reading(Inside(0, 1, false, false), []) by { assert text[..3] == "{ {"; }
  }

  // ----- choosing the artifact -----

  /** The artifact of a list of candidates: the last one that parses to an object. `parse` stands
      for JSON.parse followed by the is-an-object check; None is either of them failing. */
  function LastArtifact<T>(candidates: seq<string>, parse: string -> Option<T>): Option<T> {
    if candidates == [] then None
    else
      var n := |candidates| - 1;
      if parse(candidates[n]).Some? then parse(candidates[n]) else LastArtifact(candidates[..n], parse)
  }

  method FirstJsonObjectArtifact<T>(output: string, parse: string -> Option<T>) returns (r: Result<T>)
    ensures match LastArtifact(Candidates(output), parse)
            case Some(v) => r == Ok(v)
            case None => r.Err?
  {
    var candidates := JsonObjectCandidates(output);
    var index := |candidates| - 1;
    assert candidates[..index + 1] == candidates;
    while index >= 0
      invariant -1 <= index < |candidates|
      invariant LastArtifact(candidates, parse) == LastArtifact(candidates[..index + 1], parse)
    {
      assert candidates[..index + 1][..index] == candidates[..index];
      var artifact := parse(candidates[index]);
      if artifact.Some? {
        return Ok(artifact.value);
      }
      index := index - 1;
    }
    return Err("no JSON object artifact found");
  }

  /** The artifact is a candidate that parses and every later candidate does not; there is
      none exactly when no candidate parses. */
  lemma {:induction false} ArtifactIsLastParsing<T>(candidates: seq<string>, parse: string -> Option<T>)
    ensures LastArtifact(candidates, parse).None? <==> forall k :: 0 <= k < |candidates| ==> parse(candidates[k]).None?
    ensures LastArtifact(candidates, parse).Some? ==>
              exists k :: 0 <= k < |candidates| && parse(candidates[k]) == LastArtifact(candidates, parse)
                          && forall m :: k < m < |candidates| ==> parse(candidates[m]).None?
    decreases |candidates|
  {
    if candidates != [] {
      var n := |candidates| - 1;
      var init := candidates[..n];
      ArtifactIsLastParsing(init, parse);
      if parse(candidates[n]).None? {
        if LastArtifact(init, parse).Some? {
          var k :| 0 <= k < |init| && parse(init[k]) == LastArtifact(init, parse)
                   && forall m :: k < m < |init| ==> parse(init[m]).None?;
          assert parse(candidates[k]) == LastArtifact(candidates, parse);
          assert forall m :: k < m < |candidates| && m != n ==> candidates[m] == init[m];
        } else {
          assert forall k :: 0 <= k < |candidates| && k != n ==> candidates[k] == init[k];
        }
      }
    }
  }

  /** Of several objects in a turn the last one is its artifact, whatever examples came before it,
      provided every brace before it is closed and nothing after it parses. */
  lemma ArtifactOfTurn<T>(p: string, o: Json, q: string, parse: string -> Option<T>)
    requires o.Obj? && WellFormed(o) && Settled(p) && parse(Text(o)).Some?
    requires LastArtifact(Candidates(q), parse).None?
    ensures LastArtifact(Candidates(p + Text(o) + q), parse) == parse(Text(o))
  {
    hide Read, Candidates, Text, WellFormed, LastArtifact;
    ObjectFoundIffSettled(p, o, q);
    var found := Candidates(p) + [Text(o)] + Candidates(q);
    ArtifactIsLastParsing(found, parse);
    ArtifactIsLastParsing(Candidates(q), parse);
    var at := |Candidates(p)|;
    assert found[at] == Text(o);
    var k :| 0 <= k < |found| && parse(found[k]) == LastArtifact(found, parse)
             && forall m :: k < m < |found| ==> parse(found[m]).None?;
    forall m | at < m < |found| ensures parse(found[m]).None? {
      assert found[m] == Candidates(q)[m - at - 1];
    }
  }
}
