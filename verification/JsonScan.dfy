/** The brace scanner that pulls JSON objects out of an agent's prose
    (packages/daemon/src/oscar-deb-repair.ts). */
module JsonScan {
  // ----- reference reading: what one pass over the text finds, by position -----

  /** Where the scanner stands: between objects, or inside one that began at `start`. */
  datatype Cursor = Outside | Inside(start: nat, depth: nat, inString: bool, escaped: bool)

  /** A candidate occupies positions [from, to). */
  datatype Span = Span(from: nat, to: nat)

  datatype Reading = Reading(cursor: Cursor, spans: seq<Span>)

  const START := Reading(Outside, [])

  /** The scanner's reaction to the character at position `i`. */
  function Step(r: Reading, i: nat, c: char): Reading {
    match r.cursor
    case Outside =>
      if c == '{' then r.(cursor := Inside(i, 1, false, false)) else r
    case Inside(start, depth, true, true) => r.(cursor := Inside(start, depth, true, false))
    case Inside(start, depth, true, false) =>
      if c == '\\' then r.(cursor := Inside(start, depth, true, true))
      else if c == '"' then r.(cursor := Inside(start, depth, false, false))
      else r
    case Inside(start, depth, false, escaped) =>
      if c == '"' then r.(cursor := Inside(start, depth, true, escaped))
      else if c == '{' then r.(cursor := Inside(start, depth + 1, false, escaped))
      else if c == '}' then
        if depth <= 1 then Reading(Outside, r.spans + [Span(start, i + 1)])
        else r.(cursor := Inside(start, depth - 1, false, escaped))
      else r
  }

  /** Reads the text `w`, which begins at position `at`. */
  function Read(r: Reading, at: nat, w: string): Reading {
    if w == "" then r
    else Step(Read(r, at, w[..|w| - 1]), at + |w| - 1, w[|w| - 1])
  }

  function Spans(text: string): seq<Span> {
    Read(START, 0, text).spans
  }

  predicate SpansWithin(spans: seq<Span>, n: nat) {
    forall k :: 0 <= k < |spans| ==> spans[k].from < spans[k].to <= n
  }

  function Slices(text: string, spans: seq<Span>): (r: seq<string>)
    requires SpansWithin(spans, |text|)
    ensures |r| == |spans|
  {
    seq(|spans|, k requires 0 <= k < |spans| => text[spans[k].from..spans[k].to])
  }

  /** The candidate substrings of a text, in the order found. */
  function Candidates(text: string): seq<string> {
    SpansOrdered(text);
    Slices(text, Spans(text))
  }

  /** The scanner is between objects once it has read `p`: no brace of `p` is still open. */
  predicate Settled(p: string) {
    Read(START, 0, p).cursor.Outside?
  }

  // ----- shape of what is found -----

  predicate Ordered(text: string, r: Reading) {
    && SpansWithin(r.spans, |text|)
    && (forall k :: 0 <= k < |r.spans| ==> text[r.spans[k].from] == '{' && text[r.spans[k].to - 1] == '}')
    && (forall k, m :: 0 <= k < m < |r.spans| ==> r.spans[k].to <= r.spans[m].from)
    && (r.cursor.Inside? ==>
          && r.cursor.depth >= 1 && r.cursor.start < |text| && text[r.cursor.start] == '{'
          && (forall k :: 0 <= k < |r.spans| ==> r.spans[k].to <= r.cursor.start))
  }

  /** Candidates are disjoint, ascending, and run from an opening to a closing brace. */
  lemma {:induction false} SpansOrdered(text: string)
    ensures Ordered(text, Read(START, 0, text))
  {
    if text != "" {
      var n := |text| - 1;
      SpansOrdered(text[..n]);
      assert text == text[..n] + [text[n]];
      StepOrdered(text[..n], text[n], Read(START, 0, text[..n]));
    }
  }

  /** Text read further keeps what was found in order. */
  lemma OrderedGrows(text: string, c: char, r: Reading)
    requires Ordered(text, r)
    ensures Ordered(text + [c], r)
  {
    var longer := text + [c];
    assert forall k :: 0 <= k < |text| ==> longer[k] == text[k];
  }

  lemma StepOrdered(text: string, c: char, r: Reading)
    requires Ordered(text, r)
    ensures Ordered(text + [c], Step(r, |text|, c))
  {
    OrderedGrows(text, c, r);
    assert (text + [c])[|text|] == c;
    if Step(r, |text|, c).spans != r.spans {
      ClosingOrdered(text + [c], r);
    }
  }

  /** A closing brace turns the object under way into the last candidate. */
  lemma ClosingOrdered(text: string, r: Reading)
    requires Ordered(text, r) && text != "" && text[|text| - 1] == '}'
    requires r.cursor.Inside? && r.cursor.start < |text| - 1
    ensures Ordered(text, Reading(Outside, r.spans + [Span(r.cursor.start, |text|)]))
  {
  }

  // ----- the loop -----

  /** The scanner as the daemon runs it: start, depth and the two string flags, one character at a time. */
  method JsonObjectCandidates(output: string) returns (candidates: seq<string>)
    ensures candidates == Candidates(output)
  {
    hide Read, Candidates;
    StartReads(output);
    candidates := [];
    var start := -1;
    var depth := 0;
    var inString := false;
    var escaped := false;
    for index := 0 to |output|
      invariant depth >= 0 && -1 <= start < index
      invariant Agrees(Read(START, 0, output[..index]).cursor, start, depth, inString, escaped)
      invariant candidates == Candidates(output[..index])
    {
      ReadOneMore(output, index);
      CandidatesOneMore(output, index, start);
      var ch := output[index];
      if depth == 0 {
        if ch == '{' {
          start := index;
          depth := 1;
        }
        continue;
      }
      if inString {
        if escaped {
          escaped := false;
        } else if ch == '\\' {
          escaped := true;
        } else if ch == '"' {
          inString := false;
        }
        continue;
      }
      if ch == '"' {
        inString := true;
      } else if ch == '{' {
        depth := depth + 1;
      } else if ch == '}' {
        depth := depth - 1;
        if depth == 0 && start >= 0 {
          candidates := candidates + [output[start..index + 1]];
          start := -1;
        }
      }
    }
    assert output[..|output|] == output;
  }

  lemma StartReads(text: string)
    ensures Read(START, 0, text[..0]) == START && Candidates(text[..0]) == []
  {
  }

  lemma ReadOneMore(text: string, i: nat)
    requires i < |text|
    ensures Read(START, 0, text[..i + 1]) == Step(Read(START, 0, text[..i]), i, text[i])
  {
    var next := text[..i + 1];
    assert next[..|next| - 1] == text[..i] && next[|next| - 1] == text[i];
  }

  /** A character adds the candidate it closes, if it closes one. */
  lemma CandidatesOneMore(text: string, i: nat, start: int)
    requires i < |text|
    ensures var before, after := Read(START, 0, text[..i]).spans, Read(START, 0, text[..i + 1]).spans;
            && (after == before ==> Candidates(text[..i + 1]) == Candidates(text[..i]))
            && (0 <= start <= i && after == before + [Span(start, i + 1)] ==>
                  Candidates(text[..i + 1]) == Candidates(text[..i]) + [text[start..i + 1]])
  {
    var short, long := text[..i], text[..i + 1];
    SpansOrdered(short);
    SpansOrdered(long);
    SlicesOfPrefix(short, long, Spans(short));
    if 0 <= start <= i {
      assert long[start..i + 1] == text[start..i + 1];
    }
  }

  ghost predicate Agrees(c: Cursor, start: int, depth: int, inString: bool, escaped: bool) {
    match c
    case Outside => depth == 0 && start == -1 && !inString && !escaped
    case Inside(s, d, quoted, esc) => d == depth && d >= 1 && s == start && quoted == inString && esc == escaped && (esc ==> quoted)
  }

  lemma SlicesOfPrefix(short: string, long: string, spans: seq<Span>)
    requires short <= long && SpansWithin(spans, |short|)
    ensures Slices(short, spans) == Slices(long, spans)
  {
    forall k | 0 <= k < |spans|
      ensures short[spans[k].from..spans[k].to] == long[spans[k].from..spans[k].to]
    {
    }
  }
}
