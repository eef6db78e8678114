/** Exactly which printed frontmatter parses back to what was printed. */
module FrontmatterRoundTrip {
  import opened Outcomes
  import opened Text
  import opened Frontmatter

  datatype Entry = Entry(key: string, value: Value)

  // ----- what may be printed -----

  predicate KeyOk(key: string) {
    && key != ""
    && forall i :: 0 <= i < |key| ==>
         'a' <= key[i] <= 'z' || 'A' <= key[i] <= 'Z' || '0' <= key[i] <= '9' || key[i] == '-' || key[i] == '_'
  }

  predicate Unquoted(s: string) {
    s == "" || (!Quote(s[0]) && !Quote(s[|s| - 1]))
  }

  predicate ScalarOk(s: string) {
    s != "" && s != "|" && s != "[]" && Trimmed(s) && Unquoted(s) && OneLine(s)
  }

  predicate ItemOk(s: string) {
    Trimmed(s) && Unquoted(s) && '\n' !in s
  }

  predicate EntryOk(e: Entry) {
    && KeyOk(e.key)
    && match e.value {
         case Scalar(s) => ScalarOk(s)
         case List(items) => forall i :: 0 <= i < |items| ==> ItemOk(items[i])
       }
  }

  predicate EntriesOk(entries: seq<Entry>) {
    && (forall i :: 0 <= i < |entries| ==> EntryOk(entries[i]))
    && (forall i, j :: 0 <= i < j < |entries| ==> entries[i].key != entries[j].key)
  }

  // ----- printing -----

  function ItemLines(items: seq<string>): seq<string> {
    if items == [] then [] else ["  - " + items[0]] + ItemLines(items[1..])
  }

  function EntryLines(e: Entry): seq<string> {
    match e.value
    case Scalar(s) => [e.key + ":" + (" " + s)]
    case List(items) =>
      if items == [] then [e.key + ":" + " []"] else [e.key + ":" + ""] + ItemLines(items)
  }

  function Lines(entries: seq<Entry>): seq<string> {
    if entries == [] then [] else EntryLines(entries[0]) + Lines(entries[1..])
  }

  /** Line ends: a newline, or a carriage return and a newline. */
  predicate Eol(eol: string) { eol == "\n" || eol == "\r\n" }

  function Join(lines: seq<string>, eol: string): string {
    if lines == [] then ""
    else if |lines| == 1 then lines[0]
    else lines[0] + (eol + Join(lines[1..], eol))
  }

  function Print(entries: seq<Entry>, body: string, eol: string): string {
    FENCE + (eol + (Join(Lines(entries), eol) + (eol + (FENCE + (eol + body)))))
  }

  function PutAll(data: Data, entries: seq<Entry>): Data
    decreases |entries|
  {
    if entries == [] then data else PutAll(data[entries[0].key := entries[0].value], entries[1..])
  }

  /** What a document with these entries says. */
  function DataOf(entries: seq<Entry>): Data {
    PutAll(map[], entries)
  }

  // ----- the exact condition -----

  predicate FencedKey(key: string) { Fenced(key) }

  /** Checkable before printing: only the first key may begin with the fence, and no key is the one
      JavaScript objects refuse to store. */
  predicate Faithful(entries: seq<Entry>) {
    && (forall i :: 0 < i < |entries| ==> !FencedKey(entries[i].key))
    && (forall i :: 0 <= i < |entries| ==> entries[i].key != PROTO)
  }

  // ----- one line at a time -----

  lemma {:induction false} KeyLengthOf(key: string, after: string)
    requires forall i :: 0 <= i < |key| ==> KeyChar(key[i])
    ensures KeyLength(key + ":" + after) == |key|
    decreases |key|
  {
    var line := key + ":" + after;
    if key != "" {
      assert line[0] == key[0] && line[1..] == key[1..] + ":" + after;
      KeyLengthOf(key[1..], after);
    }
  }

  lemma {:induction false} KeyLineRead(key: string, after: string)
    requires KeyOk(key) && OneLine(TrimStart(after))
    ensures KeyValue(key + ":" + after) == Some((key, Trim(after)))
    ensures Trim(key + ":" + after) != "" && !IsItem(key + ":" + after)
  {
    var line := key + ":" + after;
    KeyLengthOf(key, after);
    assert line[..|key|] == key && line[|key| + 1..] == after;
    assert KeyChar(line[0]) && !Blank(line[0]);
    TrimOfBlank(line);
    assert TrimStart(line) == line;
    if |key| == 1 {
      assert line[1] == ':';
    } else {
      assert KeyChar(line[1]);
    }
  }

  lemma {:induction false} AfterSpace(s: string)
    requires Trimmed(s)
    ensures TrimStart(" " + s) == s && Trim(" " + s) == s
  {
    assert (" " + s)[1..] == s;
    assert TrimStart(" " + s) == TrimStart(s);
    assert TrimStart(s) == s;
    TrimOfTrimmed(s);
  }

  lemma {:induction false} ItemLineRead(item: string)
    requires ItemOk(item)
    ensures IsItem("  - " + item) && ItemText("  - " + item) == item
  {
    var line := "  - " + item;
    var dashed := "- " + item;
    assert line[1..] == " " + dashed && (" " + dashed)[1..] == dashed;
    assert dashed[0] == '-' && TrimStart(dashed) == dashed;
    assert TrimStart(line) == TrimStart(" " + dashed) == dashed;
    assert ("- " + item)[1..] == " " + item;
    AfterSpace(item);
  }

  lemma {:induction false} ItemsRead(items: seq<string>, rest: seq<string>)
    requires forall i :: 0 <= i < |items| ==> ItemOk(items[i])
    requires rest == [] || !IsItem(rest[0])
    ensures |ItemLines(items)| == |items| && Items(ItemLines(items) + rest) == items
    decreases |items|
  {
    hide Items, IsItem, ItemText, ItemOk;
    if items == [] {
      assert ItemLines(items) + rest == rest;
      NoItems(rest);
    } else {
      var line, more := "  - " + items[0], ItemLines(items[1..]);
      ItemLineRead(items[0]);
      ItemsRead(items[1..], rest);
      ItemsStart(line, more + rest);
      assert ([line] + more) + rest == [line] + (more + rest);
    }
  }

  lemma NoItems(rest: seq<string>)
    requires rest == [] || !IsItem(rest[0])
    ensures Items(rest) == []
  {
  }

  lemma ItemsStart(line: string, rest: seq<string>)
    requires IsItem(line)
    ensures Items([line] + rest) == [ItemText(line)] + Items(rest)
  {
    assert ([line] + rest)[1..] == rest;
  }

  // ----- one entry at a time -----

  lemma ScalarRead(key: string, s: string, rest: seq<string>, data: Data)
    requires KeyOk(key) && ScalarOk(s)
    ensures ReadBlock([key + ":" + (" " + s)] + rest, data) == ReadBlock(rest, Assign(data, key, Scalar(s)))
  {
    var lines := [key + ":" + (" " + s)] + rest;
    AfterSpace(s);
    KeyLineRead(key, " " + s);
    assert lines[1..] == rest;
    assert Unquote(s) == s;
  }

  lemma EmptyListRead(key: string, rest: seq<string>, data: Data)
    requires KeyOk(key)
    ensures ReadBlock([key + ":" + " []"] + rest, data) == ReadBlock(rest, Assign(data, key, List([])))
  {
    var lines := [key + ":" + " []"] + rest;
    AfterSpace("[]");
    KeyLineRead(key, " []");
    assert lines[1..] == rest;
  }

  lemma BlockListRead(key: string, items: seq<string>, rest: seq<string>, data: Data)
    requires KeyOk(key) && (forall i :: 0 <= i < |items| ==> ItemOk(items[i])) && (rest == [] || !IsItem(rest[0]))
    ensures ReadBlock(([key + ":" + ""] + ItemLines(items)) + rest, data) == ReadBlock(rest, Assign(data, key, List(items)))
  {
    hide Items, ItemLines, IsItem, ItemOk, KeyOk, KeyValue;
    var lines := ([key + ":" + ""] + ItemLines(items)) + rest;
    KeyLineRead(key, "");
    ItemsRead(items, rest);
    assert lines[1..] == ItemLines(items) + rest;
    assert lines[1 + |items|..] == rest;
  }

  lemma {:induction false} EntryRead(e: Entry, rest: seq<string>, data: Data)
    requires EntryOk(e) && (rest == [] || !IsItem(rest[0]))
    ensures ReadBlock(EntryLines(e) + rest, data) == ReadBlock(rest, Assign(data, e.key, e.value))
  {
    match e.value
    case Scalar(s) => ScalarRead(e.key, s, rest, data);
    case List(items) =>
      if items == [] {
        EmptyListRead(e.key, rest, data);
      } else {
        BlockListRead(e.key, items, rest, data);
      }
  }

  lemma FirstLine(e: Entry)
    requires EntryOk(e)
    ensures EntryLines(e) != [] && !IsItem(EntryLines(e)[0])
    ensures exists after :: EntryLines(e)[0] == e.key + ":" + after
  {
    match e.value
    case Scalar(s) =>
      AfterSpace(s);
      KeyLineRead(e.key, " " + s);
      assert EntryLines(e)[0] == e.key + ":" + (" " + s);
    case List(items) =>
      AfterSpace("[]");
      if items == [] {
        KeyLineRead(e.key, " []");
        assert EntryLines(e)[0] == e.key + ":" + " []";
      } else {
        KeyLineRead(e.key, "");
        assert EntryLines(e)[0] == e.key + ":" + "";
      }
  }

  lemma {:induction false} EntriesRead(entries: seq<Entry>, data: Data)
    requires forall i :: 0 <= i < |entries| ==> EntryOk(entries[i])
    ensures ReadBlock(Lines(entries), data) == Ok(AssignAll(data, entries))
    decreases |entries|
  {
    if entries != [] {
      var rest := Lines(entries[1..]);
      if |entries| > 1 {
        FirstLine(entries[1]);
      }
      EntryRead(entries[0], rest, data);
      EntriesRead(entries[1..], Assign(data, entries[0].key, entries[0].value));
    }
  }

  function AssignAll(data: Data, entries: seq<Entry>): Data
    decreases |entries|
  {
    if entries == [] then data else AssignAll(Assign(data, entries[0].key, entries[0].value), entries[1..])
  }

  // ----- lines and the closing fence -----

  /** No newline inside, and nothing at its end that could join one. */
  predicate CleanLine(line: string) {
    '\n' !in line && (line == "" || line[|line| - 1] != '\r')
  }

  predicate CleanLines(lines: seq<string>) {
    forall i :: 0 <= i < |lines| ==> CleanLine(lines[i])
  }

  function Shift(at: Option<nat>, n: nat): Option<nat> {
    if at.None? then None else Some(at.value + n)
  }

  lemma {:induction false} FindSkipsLine(line: string, s: string)
    requires CleanLine(line)
    ensures FindClose(line + s) == Shift(FindClose(s), |line|)
    decreases |line|
  {
    if line == "" {
      assert line + s == s;
    } else {
      InsideLine(line, s);
      assert (line + s)[1..] == line[1..] + s;
      FindSkipsLine(line[1..], s);
    }
  }

  /** No newline begins at the first character of a clean line. */
  lemma InsideLine(line: string, s: string)
    requires CleanLine(line) && line != ""
    ensures NewlineLength(line + s) == 0 && CleanLine(line[1..])
  {
    assert (line + s)[0] == line[0] && line[0] in line;
    if |line| > 1 {
      assert (line + s)[1] == line[1] && line[1] in line;
      assert forall c :: c in line[1..] ==> c in line;
    }
  }

  lemma EolAhead(eol: string, rest: string)
    requires Eol(eol)
    ensures NewlineLength(eol + rest) == |eol| && (eol + rest)[|eol|..] == rest
  {
  }

  lemma {:induction false} FindAtEol(eol: string, rest: string)
    requires Eol(eol)
    ensures FindClose(eol + rest) == if Fenced(rest) then Some(0) else Shift(FindClose(rest), |eol|)
  {
    EolAhead(eol, rest);
    if !Fenced(rest) {
      if eol == "\n" {
        assert (eol + rest)[1..] == rest;
      } else {
        EolAhead("\n", rest);
        assert (eol + rest)[1..] == "\n" + rest;
        assert ("\n" + rest)[1..] == rest;
      }
    }
  }

  /** The number of lines before the first later line that begins with the fence. */
  function Cut(lines: seq<string>): (k: nat)
    ensures k <= |lines| && (lines != [] ==> k >= 1)
  {
    if |lines| <= 1 then |lines| else if Fenced(lines[1]) then 1 else 1 + Cut(lines[1..])
  }

  lemma FenceStays(line: string, eol: string, s: string)
    requires Eol(eol)
    ensures Fenced(line + (eol + s)) <==> Fenced(line)
  {
    var t := line + (eol + s);
    if |line| < 3 {
      assert t[|line|] == eol[0];
    } else {
      assert t[0] == line[0] && t[1] == line[1] && t[2] == line[2];
    }
  }

  /** Joined lines, a line end, and what follows. */
  function Whole(lines: seq<string>, eol: string, tail: string): string {
    if lines == [] then eol + tail
    else lines[0] + (eol + (if |lines| == 1 then tail else Whole(lines[1..], eol, tail)))
  }

  lemma {:induction false} WholeIsJoin(lines: seq<string>, eol: string, tail: string)
    ensures Whole(lines, eol, tail) == Join(lines, eol) + (eol + tail)
  {
    if |lines| > 1 {
      WholeIsJoin(lines[1..], eol, tail);
    }
  }

  lemma FindPastLine(line: string, eol: string, rest: string)
    requires CleanLine(line) && Eol(eol)
    ensures FindClose(line + (eol + rest))
         == if Fenced(rest) then Some(|line|) else Shift(FindClose(rest), |line| + |eol|)
  {
    hide FindClose, Fenced, CleanLine;
    FindSkipsLine(line, eol + rest);
    FindAtEol(eol, rest);
  }

  lemma {:induction false} FindInWhole(lines: seq<string>, eol: string, tail: string)
    requires CleanLines(lines) && Eol(eol) && Fenced(tail)
    ensures FindClose(Whole(lines, eol, tail)) == Some(|Join(lines[..Cut(lines)], eol)|)
    decreases |lines|
  {
    hide FindClose, Fenced, CleanLine;
    if lines == [] {
      FindAtEol(eol, tail);
    } else {
      var rest := if |lines| == 1 then tail else Whole(lines[1..], eol, tail);
      FindPastLine(lines[0], eol, rest);
      if |lines| == 1 {
        assert lines[..1] == lines;
      } else {
        WholeStarts(lines[1..], eol, tail);
        if Fenced(lines[1]) {
          assert lines[..1] == [lines[0]];
        } else {
          FindInWhole(lines[1..], eol, tail);
          JoinPrefix(lines, eol, Cut(lines[1..]));
        }
      }
    }
  }

  lemma WholeStarts(lines: seq<string>, eol: string, tail: string)
    requires lines != [] && Eol(eol)
    ensures Fenced(Whole(lines, eol, tail)) <==> Fenced(lines[0])
  {
    FenceStays(lines[0], eol, if |lines| == 1 then tail else Whole(lines[1..], eol, tail));
  }

  lemma JoinPrefix(lines: seq<string>, eol: string, k: nat)
    requires |lines| > 1 && 1 <= k <= |lines[1..]|
    ensures |Join(lines[..k + 1], eol)| == |lines[0]| + |eol| + |Join(lines[1..][..k], eol)|
    ensures Join(lines[..k + 1], eol) == lines[0] + (eol + Join(lines[1..][..k], eol))
  {
    assert lines[..k + 1][1..] == lines[1..][..k];
  }

  lemma {:induction false} CutIsPrefix(lines: seq<string>, eol: string, tail: string)
    ensures Join(lines[..Cut(lines)], eol) <= Whole(lines, eol, tail)
    decreases |lines|
  {
    if |lines| == 1 {
      assert lines[..1] == lines;
    } else if |lines| > 1 {
      if Fenced(lines[1]) {
        assert lines[..1] == [lines[0]];
      } else {
        CutIsPrefix(lines[1..], eol, tail);
        JoinPrefix(lines, eol, Cut(lines[1..]));
      }
    }
  }

  lemma {:induction false} SplitSkipsLine(line: string, eol: string, s: string)
    requires CleanLine(line) && Eol(eol)
    ensures SplitLines(line + (eol + s)) == [line] + SplitLines(s)
    decreases |line|
  {
    var t := line + (eol + s);
    if line == "" {
      assert t == eol + s;
      EolAhead(eol, s);
    } else {
      InsideLine(line, eol + s);
      assert t[1..] == line[1..] + (eol + s);
      SplitSkipsLine(line[1..], eol, s);
      assert [line[0]] + line[1..] == line;
    }
  }

  lemma {:induction false} SplitLastLine(line: string)
    requires CleanLine(line)
    ensures SplitLines(line) == [line]
    decreases |line|
  {
    if line != "" {
      InsideLine(line, "");
      assert line + "" == line;
      SplitLastLine(line[1..]);
      assert [line[0]] + line[1..] == line;
    }
  }

  lemma JoinStep(lines: seq<string>, eol: string)
    requires lines != []
    ensures Join(lines, eol) == if |lines| == 1 then lines[0] else lines[0] + (eol + Join(lines[1..], eol))
  {
  }

  lemma {:induction false} SplitJoined(lines: seq<string>, eol: string)
    requires lines != [] && CleanLines(lines) && Eol(eol)
    ensures SplitLines(Join(lines, eol)) == lines
    decreases |lines|
  {
    hide SplitLines, CleanLine, Join;
    JoinStep(lines, eol);
    if |lines| == 1 {
      SplitLastLine(lines[0]);
      assert lines == [lines[0]];
    } else {
      SplitJoined(lines[1..], eol);
      SplitSkipsLine(lines[0], eol, Join(lines[1..], eol));
      assert lines == [lines[0]] + lines[1..];
    }
  }

  // ----- where the block of printed entries ends -----

  function CutEntries(entries: seq<Entry>): (m: nat)
    ensures m <= |entries|
    ensures m < |entries| <==> exists i :: 0 < i < |entries| && FencedKey(entries[i].key)
  {
    if |entries| <= 1 then |entries|
    else if FencedKey(entries[1].key) then 1
    else
      var m := CutEntries(entries[1..]);
      assert forall i :: 1 < i < |entries| ==> entries[i] == entries[1..][i - 1];
      1 + m
  }

  lemma {:induction false} CutAppend(a: seq<string>, b: seq<string>)
    requires a != [] && forall i :: 0 < i < |a| ==> !Fenced(a[i])
    ensures Cut(a + b) == if b == [] || Fenced(b[0]) then |a| else |a| + Cut(b)
    decreases |a|
  {
    if |a| == 1 {
      assert (a + b)[1..] == b;
    } else {
      assert (a + b)[1..] == a[1..] + b && (a + b)[1] == a[1];
      CutAppend(a[1..], b);
    }
  }

  lemma {:induction false} ItemLinesClean(items: seq<string>)
    requires forall i :: 0 <= i < |items| ==> ItemOk(items[i])
    ensures CleanLines(ItemLines(items))
    ensures forall i :: 0 <= i < |ItemLines(items)| ==> !Fenced(ItemLines(items)[i])
    decreases |items|
  {
    if items != [] {
      ItemLinesClean(items[1..]);
      var line := "  - " + items[0];
      assert ItemOk(items[0]);
      assert CleanLine(line);
      assert line[0] == ' ';
    }
  }

  lemma {:induction false} EntryLinesClean(e: Entry)
    requires EntryOk(e)
    ensures EntryLines(e) != [] && CleanLines(EntryLines(e))
    ensures forall i :: 0 < i < |EntryLines(e)| ==> !Fenced(EntryLines(e)[i])
    ensures Fenced(EntryLines(e)[0]) <==> FencedKey(e.key)
  {
    assert '\n' !in e.key;
    match e.value
    case Scalar(s) =>
      assert '\n' !in s;
      KeyStarts(e.key, " " + s);
    case List(items) =>
      ItemLinesClean(items);
      KeyStarts(e.key, " []");
      KeyStarts(e.key, "");
  }

  lemma KeyStarts(key: string, after: string)
    ensures Fenced(key + ":" + after) <==> FencedKey(key)
  {
    var line := key + ":" + after;
    if |key| < 3 {
      assert line[|key|] == ':';
    } else {
      assert line[0] == key[0] && line[1] == key[1] && line[2] == key[2];
    }
  }

  lemma {:induction false} LinesClean(entries: seq<Entry>)
    requires forall i :: 0 <= i < |entries| ==> EntryOk(entries[i])
    ensures CleanLines(Lines(entries))
    ensures entries != [] ==> Lines(entries) != [] && (Fenced(Lines(entries)[0]) <==> FencedKey(entries[0].key))
    decreases |entries|
  {
    if entries != [] {
      EntryLinesClean(entries[0]);
      LinesClean(entries[1..]);
    }
  }

  lemma {:induction false} LinesCut(entries: seq<Entry>)
    requires forall i :: 0 <= i < |entries| ==> EntryOk(entries[i])
    ensures Lines(entries)[..Cut(Lines(entries))] == Lines(entries[..CutEntries(entries)])
    decreases |entries|
  {
    hide Lines, EntryLines, Cut, CleanLines, EntryOk, Fenced, FencedKey;
    if entries == [] {
      LinesOfNone();
    } else {
      var e, rest := entries[0], entries[1..];
      assert entries == [e] + rest;
      LinesCons(e, rest);
      EntryLinesClean(e);
      LinesClean(rest);
      CutAppend(EntryLines(e), Lines(rest));
      LinesOfNone();
      if rest == [] || FencedKey(rest[0].key) {
        assert entries[..1] == [e] + [];
        LinesCons(e, []);
        PrefixAcross(EntryLines(e), Lines(rest), 0);
      } else {
        LinesCut(rest);
        var m := CutEntries(rest);
        assert entries[..m + 1] == [e] + rest[..m];
        LinesCons(e, rest[..m]);
        PrefixAcross(EntryLines(e), Lines(rest), Cut(Lines(rest)));
      }
    }
  }

  lemma LinesOfNone()
    ensures Lines([]) == [] && Cut([]) == 0
  {
  }

  lemma LinesCons(e: Entry, rest: seq<Entry>)
    ensures Lines([e] + rest) == EntryLines(e) + Lines(rest)
  {
    assert ([e] + rest)[1..] == rest;
  }

  lemma PrefixAcross(a: seq<string>, b: seq<string>, n: nat)
    requires n <= |b|
    ensures (a + b)[..|a| + n] == a + b[..n]
  {
  }

  // ----- the data read back -----

  ghost predicate HasKey(entries: seq<Entry>, key: string) {
    exists i :: 0 <= i < |entries| && entries[i].key == key
  }

  lemma {:induction false} KeysRead(data: Data, entries: seq<Entry>)
    ensures forall k :: k in AssignAll(data, entries) <==>
              k in data || (k != PROTO && HasKey(entries, k))
    ensures forall k :: k in PutAll(data, entries) <==>
              k in data || HasKey(entries, k)
    decreases |entries|
  {
    if entries != [] {
      var e, rest := entries[0], entries[1..];
      assert entries == [e] + rest;
      KeysRead(Assign(data, e.key, e.value), rest);
      KeysRead(data[e.key := e.value], rest);
      forall k ensures HasKey(entries, k) <==> k == e.key || HasKey(rest, k) {
        if HasKey(rest, k) {
          var i :| 0 <= i < |rest| && rest[i].key == k;
          assert entries[i + 1].key == k;
        }
        if HasKey(entries, k) && k != e.key {
          var i :| 0 <= i < |entries| && entries[i].key == k;
          assert rest[i - 1].key == k;
        }
        assert entries[0].key == e.key;
      }
    }
  }

  lemma {:induction false} SameWithoutProto(data: Data, entries: seq<Entry>)
    requires forall i :: 0 <= i < |entries| ==> entries[i].key != PROTO
    ensures AssignAll(data, entries) == PutAll(data, entries)
    decreases |entries|
  {
    if entries != [] {
      SameWithoutProto(data[entries[0].key := entries[0].value], entries[1..]);
    }
  }

  lemma {:induction false} DataIffFaithful(entries: seq<Entry>)
    requires EntriesOk(entries)
    ensures AssignAll(map[], entries[..CutEntries(entries)]) == DataOf(entries) <==> Faithful(entries)
  {
    var m := CutEntries(entries);
    var read := entries[..m];
    KeysRead(map[], read);
    KeysRead(map[], entries);
    if Faithful(entries) {
      assert read == entries;
      SameWithoutProto(map[], entries);
    } else if m < |entries| {
      var key := entries[m].key;
      assert key in DataOf(entries);
      assert key !in AssignAll(map[], read);
    } else {
      var i :| 0 <= i < |entries| && entries[i].key == PROTO;
      assert PROTO in DataOf(entries) && PROTO !in AssignAll(map[], read);
    }
  }

  // ----- main result -----

  /** The block of a printed document is its lines up to the first later fenced key. */
  lemma {:induction false} PrintDelimited(entries: seq<Entry>, body: string, eol: string)
    requires EntriesOk(entries) && Eol(eol)
    ensures Delimited(Print(entries, body, eol)).Some?
    ensures var (yaml, rest) := Delimited(Print(entries, body, eol)).value;
            && yaml == Join(Lines(entries[..CutEntries(entries)]), eol)
            && (CutEntries(entries) == |entries| ==> rest == body)
  {
    hide FindClose, Lines, Join, Cut, CutEntries, Whole, EntryOk, CleanLines;
    var lines := Lines(entries);
    var tail := FENCE + (eol + body);
    var inner := Whole(lines, eol, tail);
    WholeIsJoin(lines, eol, tail);
    PrintOpens(eol, inner);
    LinesClean(entries);
    LinesCut(entries);
    FindInWhole(lines, eol, tail);
    CutIsPrefix(lines, eol, tail);
    if CutEntries(entries) == |entries| {
      assert entries[..|entries|] == entries;
      BodyAfter(Join(lines, eol), eol, body);
    }
  }

  lemma BodyAfter(block: string, eol: string, body: string)
    requires Eol(eol)
    ensures var closing := (block + (eol + (FENCE + (eol + body))))[|block|..];
            NewlineLength(closing) == |eol| && |closing| >= |eol| + 3 && SkipNewline(closing[|eol| + 3..]) == body
  {
    var tail := FENCE + (eol + body);
    assert (block + (eol + tail))[|block|..] == eol + tail;
    EolAhead(eol, tail);
    assert (eol + tail)[|eol| + 3..] == eol + body;
    SkipsEol(eol, body);
  }

  lemma PrintOpens(eol: string, inner: string)
    requires Eol(eol)
    ensures var text := FENCE + (eol + inner);
            Fenced(text) && NewlineLength(text[3..]) == |eol| && text[3..][|eol|..] == inner
  {
    assert (FENCE + (eol + inner))[3..] == eol + inner;
    EolAhead(eol, inner);
  }

  lemma SkipsEol(eol: string, body: string)
    requires Eol(eol)
    ensures SkipNewline(eol + body) == body
  {
    if eol == "\r\n" {
      assert (eol + body)[1..] == "\n" + body;
    }
  }

  lemma {:induction false} BlockRead(kept: seq<Entry>, eol: string)
    requires (forall i :: 0 <= i < |kept| ==> EntryOk(kept[i])) && Eol(eol)
    ensures ReadBlock(SplitLines(Join(Lines(kept), eol)), map[]) == Ok(AssignAll(map[], kept))
  {
    LinesClean(kept);
    if kept == [] {
      assert [""][1..] == [];
    } else {
      SplitJoined(Lines(kept), eol);
      EntriesRead(kept, map[]);
    }
  }

  /** Parsing a printed document gives its entries and trimmed body back exactly when no key after the
      first begins with three dashes and no key is `__proto__`. */
  lemma {:induction false} RoundTripIffFaithful(entries: seq<Entry>, body: string, eol: string)
    requires EntriesOk(entries) && Eol(eol)
    ensures Parse(Print(entries, body, eol)) == Ok(Document(DataOf(entries), Trim(body))) <==> Faithful(entries)
  {
    hide Delimited, ReadBlock, SplitLines, Trim, Lines, Join, DataOf, AssignAll, CutEntries, EntryOk;
    var text := Print(entries, body, eol);
    assert text[0] == '-';
    PrintDelimited(entries, body, eol);
    BlockRead(entries[..CutEntries(entries)], eol);
    DataIffFaithful(entries);
    assert Faithful(entries) ==> CutEntries(entries) == |entries|;
  }

  // ----- quoted values -----

  /** A quote of either kind goes from each end, matched or not; a text without any stays. */
  lemma UnquoteDropsQuotes(q: char, t: string, r: char)
    requires q in {'"', '\''} && r in {'"', '\''}
    ensures Unquote([q] + t + [r]) == t
    ensures t == "" || (t[0] !in {'"', '\''} && t[|t| - 1] !in {'"', '\''}) ==> Unquote(t) == t
  {
    var s := [q] + t + [r];
    assert s[1..] == t + [r] && (t + [r])[..|t|] == t;
  }

  /** Between quotes a value reads back whatever its text: blank ends, list signs and dashes too. */
  lemma QuotedScalarRead(key: string, q: char, t: string, r: char, rest: seq<string>, data: Data)
    requires KeyOk(key) && key != "__proto__" && OneLine(t) && q in {'"', '\''} && r in {'"', '\''}
    ensures ReadBlock([key + ":" + (" " + ([q] + t + [r]))] + rest, data) == ReadBlock(rest, data[key := Scalar(t)])
  {
    hide ReadBlock, KeyValue, Trim, TrimStart;
    var s := [q] + t + [r];
    assert s[0] == q && s[|s| - 1] == r && |s| >= 2;
    assert forall i :: 1 <= i < |s| - 1 ==> s[i] == t[i - 1];
    AfterSpace(s);
    KeyLineRead(key, " " + s);
    UnquoteDropsQuotes(q, t, r);
    BlockStep(key + ":" + (" " + s), rest, data);
  }

  lemma QuotedItemRead(q: char, t: string, r: char)
    requires q in {'"', '\''} && r in {'"', '\''}
    ensures IsItem("  - " + ([q] + t + [r])) && ItemText("  - " + ([q] + t + [r])) == t
  {
    var s := [q] + t + [r];
    var line := "  - " + s;
    assert line[1..] == " - " + s && (" - " + s)[1..] == "- " + s;
    assert TrimStart("- " + s) == "- " + s;
    assert TrimStart(" - " + s) == "- " + s;
    assert TrimStart(line) == "- " + s;
    assert ("- " + s)[1..] == " " + s;
    assert s[0] == q && s[|s| - 1] == r;
    AfterSpace(s);
    UnquoteDropsQuotes(q, t, r);
  }

  /** A byte-order mark in front of a document changes nothing. */
  lemma ByteOrderMarkIgnored(md: string)
    requires !(BOM <= md)
    ensures Parse(BOM + md) == Parse(md)
  {
    assert (BOM + md)[1..] == md;
  }

  /** The dropped key, concretely: a second key of three dashes ends the block early. */
  lemma FencedKeyIsLost(body: string)
    ensures var entries := [Entry("id", Scalar("a")), Entry("---x", Scalar("b"))];
            && EntriesOk(entries) && !Faithful(entries)
            && Parse(Print(entries, body, "\n")) != Ok(Document(DataOf(entries), Trim(body)))
  {
    var entries := [Entry("id", Scalar("a")), Entry("---x", Scalar("b"))];
    assert FencedKey(entries[1].key);
    RoundTripIffFaithful(entries, body, "\n");
  }
}
