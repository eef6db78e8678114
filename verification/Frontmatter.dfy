/** The frontmatter parser for governance files (packages/core/src/personas/frontmatter.ts). */
module Frontmatter {
  import opened Outcomes
  import opened Text

  datatype Value = Scalar(text: string) | List(items: seq<string>)

  type Data = map<string, Value>

  datatype Document = Document(data: Data, body: string)

  const BOM := "\U{FEFF}"
  const FENCE := "---"

  /** A key JavaScript objects do not store as their own when assigned. */
  const PROTO := "__proto__"

  function Assign(data: Data, key: string, value: Value): Data {
    if key == PROTO then data else data[key := value]
  }

  // ----- the delimited block -----

  /** Three dashes. */
  predicate Fenced(s: string) {
    |s| >= 3 && s[0] == '-' && s[1] == '-' && s[2] == '-'
  }

  /** The newline a text begins with, a carriage return before it included; 0 when there is none. */
  function NewlineLength(s: string): (n: nat)
    ensures n <= |s|
  {
    if s != "" && s[0] == '\n' then 1
    else if |s| >= 2 && s[0] == '\r' && s[1] == '\n' then 2
    else 0
  }

  /** A closing fence begins here: a newline and three dashes. */
  predicate Closes(s: string) {
    NewlineLength(s) > 0 && Fenced(s[NewlineLength(s)..])
  }

  /** Where the lazy block ends: the first place a closing fence begins. */
  function FindClose(s: string): Option<nat> {
    if Closes(s) then Some(0)
    else if s == "" then None
    else
      match FindClose(s[1..])
      case None => None
      case Some(n) => Some(n + 1)
  }

  lemma {:induction false} CloseInBounds(s: string)
    requires FindClose(s).Some?
    ensures FindClose(s).value <= |s| && Closes(s[FindClose(s).value..])
    decreases |s|
  {
    if !Closes(s) {
      CloseInBounds(s[1..]);
      assert s[1..][FindClose(s[1..]).value..] == s[FindClose(s).value..];
    }
  }

  /** The block and the body of a text without byte-order mark, if it is delimited. */
  function Delimited(text: string): Option<(string, string)> {
    if !Fenced(text) || NewlineLength(text[3..]) == 0 then None
    else
      var inner := text[3..][NewlineLength(text[3..])..];
      match FindClose(inner)
      case None => None
      case Some(n) =>
        CloseInBounds(inner);
        var closing := inner[n..];
        Some((inner[..n], SkipNewline(closing[NewlineLength(closing) + 3..])))
  }

  /** An optional carriage return, then an optional newline. */
  function SkipNewline(s: string): string {
    var t := if s != "" && s[0] == '\r' then s[1..] else s;
    if t != "" && t[0] == '\n' then t[1..] else t
  }

  /** Lines ended by a newline, with or without a carriage return before it. */
  function SplitLines(s: string): (lines: seq<string>)
    ensures lines != []
    decreases |s|
  {
    if s == "" then [""]
    else if NewlineLength(s) > 0 then [""] + SplitLines(s[NewlineLength(s)..])
    else
      var rest := SplitLines(s[1..]);
      [[s[0]] + rest[0]] + rest[1..]
  }

  // ----- one line -----

  predicate KeyChar(c: char) {
    'A' <= c <= 'Z' || 'a' <= c <= 'z' || '0' <= c <= '9' || c == '_' || c == '-'
  }

  function KeyLength(line: string): (n: nat)
    ensures n <= |line|
  {
    if line != "" && KeyChar(line[0]) then 1 + KeyLength(line[1..]) else 0
  }

  predicate LineTerminator(c: char) {
    c == '\n' || c == '\r' || c == '\U{2028}' || c == '\U{2029}'
  }

  predicate OneLine(s: string) {
    forall i :: 0 <= i < |s| ==> !LineTerminator(s[i])
  }

  /** `key: rest`, with the rest trimmed. */
  function KeyValue(line: string): Option<(string, string)> {
    var n := KeyLength(line);
    if n > 0 && n < |line| && line[n] == ':' && OneLine(TrimStart(line[n + 1..])) then
      Some((line[..n], Trim(line[n + 1..])))
    else None
  }

  predicate IsItem(line: string) {
    var t := TrimStart(line);
    |t| >= 2 && t[0] == '-' && Blank(t[1])
  }

  predicate Quote(c: char) { c == '"' || c == '\'' }

  /** One quote dropped from each end. */
  function Unquote(s: string): string {
    var t := if s != "" && Quote(s[0]) then s[1..] else s;
    if t != "" && Quote(t[|t| - 1]) then t[..|t| - 1] else t
  }

  function ItemText(line: string): string
    requires IsItem(line)
  {
    Unquote(Trim(TrimStart(line)[1..]))
  }

  // ----- the block -----

  function Items(lines: seq<string>): (items: seq<string>)
    ensures |items| <= |lines|
  {
    if lines != [] && IsItem(lines[0]) then [ItemText(lines[0])] + Items(lines[1..]) else []
  }

  function ReadBlock(lines: seq<string>, data: Data): Result<Data>
    decreases |lines|
  {
    if lines == [] then Ok(data)
    else if Trim(lines[0]) == "" then ReadBlock(lines[1..], data)
    else
      match KeyValue(lines[0])
      case None => Err("cannot parse line")
      case Some((key, rest)) =>
        if rest == "" || rest == "|" then
          var items := Items(lines[1..]);
          ReadBlock(lines[1 + |items|..], Assign(data, key, List(items)))
        else if rest == "[]" then ReadBlock(lines[1..], Assign(data, key, List([])))
        else ReadBlock(lines[1..], Assign(data, key, Scalar(Unquote(rest))))
  }

  function Parse(md: string): Result<Document> {
    var text := if BOM <= md then md[1..] else md;
    match Delimited(text)
    case None => Err("missing delimited block")
    case Some((yaml, body)) =>
      match ReadBlock(SplitLines(yaml), map[])
      case Err(e) => Err(e)
      case Ok(data) => Ok(Document(data, Trim(body)))
  }

  method ParseFrontmatter(md: string) returns (r: Result<Document>)
    ensures r == Parse(md)
  {
    var text := if BOM <= md then md[1..] else md;
    var m := Delimited(text);
    if m.None? {
      return Err("missing delimited block");
    }
    var (yaml, body) := m.value;
    var data := ParseLines(SplitLines(yaml));
    if data.Err? {
      return Err(data.error);
    }
    r := Ok(Document(data.value, Trim(body)));
  }

  method ParseLines(lines: seq<string>) returns (r: Result<Data>)
    ensures r == ReadBlock(lines, map[])
  {
    r := ReadLines(lines);
    ReadFromIsReadBlock(lines, 0, map[]);
    assert lines[0..] == lines;
  }

  /** The line loop. */
  method ReadLines(lines: seq<string>) returns (r: Result<Data>)
    ensures r == ReadFrom(lines, 0, map[])
  {
    hide Trim, KeyValue, Items, Unquote;
    var data: Data := map[];
    var i := 0;
    while i < |lines|
      invariant 0 <= i <= |lines|
      invariant ReadFrom(lines, i, data) == ReadFrom(lines, 0, map[])
    {
      var line := lines[i];
      if Trim(line) == "" {
        i := i + 1;
        continue;
      }
      var kv := KeyValue(line);
      if kv.None? {
        return Err("cannot parse line");
      }
      var (key, rest) := kv.value;
      if rest == "" || rest == "|" {
        var items, next := BlockList(lines, i + 1);
        i := next;
        data := Assign(data, key, List(items));
        continue;
      }
      if rest == "[]" {
        data := Assign(data, key, List([]));
        i := i + 1;
        continue;
      }
      data := Assign(data, key, Scalar(Unquote(rest)));
      i := i + 1;
    }
    r := Ok(data);
  }

  /** Reading the block from line `i` on. */
  function ReadFrom(lines: seq<string>, i: nat, data: Data): Result<Data>
    requires i <= |lines|
    decreases |lines| - i
  {
    if i == |lines| then Ok(data)
    else if Trim(lines[i]) == "" then ReadFrom(lines, i + 1, data)
    else
      match KeyValue(lines[i])
      case None => Err("cannot parse line")
      case Some((key, rest)) =>
        if rest == "" || rest == "|" then
          var items := Items(lines[i + 1..]);
          ReadFrom(lines, i + 1 + |items|, Assign(data, key, List(items)))
        else if rest == "[]" then ReadFrom(lines, i + 1, Assign(data, key, List([])))
        else ReadFrom(lines, i + 1, Assign(data, key, Scalar(Unquote(rest))))
  }

  /** What reading a block does with its first line. */
  lemma BlockStep(line: string, rest: seq<string>, data: Data)
    ensures var kv := KeyValue(line);
            ReadBlock([line] + rest, data) ==
            if Trim(line) == "" then ReadBlock(rest, data)
            else if kv.None? then Err("cannot parse line")
            else if kv.value.1 == "" || kv.value.1 == "|" then
              ReadBlock(rest[|Items(rest)|..], Assign(data, kv.value.0, List(Items(rest))))
            else
              ReadBlock(rest, Assign(data, kv.value.0, if kv.value.1 == "[]" then List([]) else Scalar(Unquote(kv.value.1))))
  {
    var here := [line] + rest;
    assert here[1..] == rest;
    assert here[1 + |Items(rest)|..] == rest[|Items(rest)|..];
  }

  lemma BlockEnd(data: Data)
    ensures ReadBlock([], data) == Ok(data)
  {
  }

  lemma {:induction false} ReadFromIsReadBlock(lines: seq<string>, i: nat, data: Data)
    requires i <= |lines|
    ensures ReadFrom(lines, i, data) == ReadBlock(lines[i..], data)
    decreases |lines| - i
  {
    hide Trim, KeyValue, Items, Unquote, ReadBlock;
    if i == |lines| {
      BlockEnd(data);
    } else {
      BlockStep(lines[i], lines[i + 1..], data);
      assert lines[i..] == [lines[i]] + lines[i + 1..];
      var kv := KeyValue(lines[i]);
      if Trim(lines[i]) == "" {
        ReadFromIsReadBlock(lines, i + 1, data);
      } else if kv.Some? {
        if kv.value.1 == "" || kv.value.1 == "|" {
          var items := Items(lines[i + 1..]);
          ReadFromIsReadBlock(lines, i + 1 + |items|, Assign(data, kv.value.0, List(items)));
          assert lines[i + 1..][|items|..] == lines[i + 1 + |items|..];
        } else {
          var value := if kv.value.1 == "[]" then List([]) else Scalar(Unquote(kv.value.1));
          ReadFromIsReadBlock(lines, i + 1, Assign(data, kv.value.0, value));
        }
      }
    }
  }

  /** Consumes the item lines from `first` on. */
  method BlockList(lines: seq<string>, first: nat) returns (items: seq<string>, i: nat)
    requires first <= |lines|
    ensures items == Items(lines[first..]) && i == first + |items| <= |lines|
  {
    items, i := [], first;
    assert items + Items(lines[first..]) == Items(lines[first..]);
    while i < |lines| && IsItem(lines[i])
      invariant first <= i <= |lines| && |items| == i - first
      invariant items + Items(lines[i..]) == Items(lines[first..])
    {
      ItemsStep(lines, i, items);
      items := items + [ItemText(lines[i])];
      i := i + 1;
    }
    ItemsEnd(lines, i, items);
  }

  lemma ItemsStep(lines: seq<string>, i: nat, items: seq<string>)
    requires i < |lines| && IsItem(lines[i])
    ensures items + Items(lines[i..]) == (items + [ItemText(lines[i])]) + Items(lines[i + 1..])
  {
    assert lines[i..][0] == lines[i] && lines[i..][1..] == lines[i + 1..];
  }

  lemma ItemsEnd(lines: seq<string>, i: nat, items: seq<string>)
    requires i <= |lines| && (i < |lines| ==> !IsItem(lines[i]))
    ensures items + Items(lines[i..]) == items
  {
    if i < |lines| {
      assert lines[i..][0] == lines[i];
    }
  }
}
