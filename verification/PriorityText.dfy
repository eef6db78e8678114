/** The text of a created priority, and exactly which titles it can carry
    (packages/core/src/priorities/compose.ts, packages/daemon/src/priority-authoring.ts). */
module PriorityText {
  import opened Outcomes
  import opened Text
  import opened Frontmatter
  import opened FrontmatterRoundTrip

  /** What the create form demands of an id: a letter or digit, then letters, digits and dashes. */
  predicate IsSlug(id: string) {
    && id != "" && id[0] != '-'
    && forall i :: 0 <= i < |id| ==> 'a' <= id[i] <= 'z' || '0' <= id[i] <= '9' || id[i] == '-'
  }

  function Body(goal: string): string {
    if goal != "" && goal[|goal| - 1] == '\n' then goal else goal + "\n"
  }

  function ComposePriorityMarkdown(id: string, title: string, goal: string): string {
    FENCE + ("\n" + (("id: " + id) + ("\n" + (("title: " + title) + ("\n" + (FENCE + ("\n" + Body(goal))))))))
  }

  /** A priority file loads under its name: its id is the name and it has a title. */
  predicate Loads(markdown: string, id: string) {
    var parsed := Parse(markdown);
    && parsed.Ok?
    && var data := parsed.value.data;
       && "id" in data && data["id"] == Scalar(id)
       && "title" in data && data["title"].Scalar? && data["title"].text != ""
       && BooleanOk(data, "independent-of-runner") && BooleanOk(data, "destructive")
  }

  predicate BooleanOk(data: Data, key: string) {
    key in data ==> data[key] == Scalar("true") || data[key] == Scalar("false")
  }

  /** What a created priority must read back as: exactly the id and title given. */
  predicate Validates(markdown: string, id: string, title: string) {
    Loads(markdown, id) && Parse(markdown).value.data == map["id" := Scalar(id), "title" := Scalar(title)]
  }

  // ----- what the parser makes of the two lines -----

  /** The value read from a line of one key and this text. */
  function ValueRead(text: string): Value {
    var rest := Trim(text);
    if rest == "" || rest == "|" || rest == "[]" then List([]) else Scalar(Unquote(rest))
  }

  lemma OneEntryRead(key: string, text: string, lines: seq<string>, data: Data)
    requires KeyOk(key) && key != PROTO && OneLine(text) && (lines == [] || !IsItem(lines[0]))
    ensures ReadBlock([key + ":" + text] + lines, data) == ReadBlock(lines, data[key := ValueRead(text)])
  {
    var all := [key + ":" + text] + lines;
    OneLineTrims(text);
    KeyLineRead(key, text);
    assert all[0] == key + ":" + text && all[1..] == lines;
    assert Items(lines) == [];
    assert all[1 + |Items(lines)|..] == lines;
  }

  lemma {:induction false} OneLineTrims(s: string)
    requires OneLine(s)
    ensures OneLine(TrimStart(s))
  {
    if s != "" && Blank(s[0]) {
      OneLineTrims(s[1..]);
    }
  }

  lemma ComposeRead(id: string, title: string, goal: string)
    requires IsSlug(id) && OneLine(title)
    ensures var parsed := Parse(ComposePriorityMarkdown(id, title, goal));
            && parsed.Ok? && parsed.value.data == map["id" := ValueRead(" " + id), "title" := ValueRead(" " + title)]
            && parsed.value.body == Trim(goal)
  {
    hide FindClose, ReadBlock, ValueRead, Join, SplitLines, Cut, Whole, IsSlug, OneLine, Trim;
    var md := ComposePriorityMarkdown(id, title, goal);
    var lines := ["id:" + (" " + id), "title:" + (" " + title)];
    assert "id: " + id == "id:" + (" " + id) && "title: " + title == "title:" + (" " + title);
    var tail := FENCE + ("\n" + Body(goal));
    TwoLines(lines[0], lines[1], tail);
    LinesAreClean(id, title);
    FindInWhole(lines, "\n", tail);
    WholeIsJoin(lines, "\n", tail);
    PrintOpens("\n", Whole(lines, "\n", tail));
    assert md == FENCE + ("\n" + Whole(lines, "\n", tail)) && md[0] == '-';
    assert Cut(lines) == 2 && lines[..2] == lines;
    assert Whole(lines, "\n", tail)[..|Join(lines, "\n")|] == Join(lines, "\n");
    SplitJoined(lines, "\n");
    LinesRead(id, title);
    BodyAfter(Join(lines, "\n"), "\n", Body(goal));
    TrimOfBody(goal);
  }

  /** The body of a composed priority ends in a line end, added only to a goal that has none; trimmed, it is the
      goal. */
  lemma TrimOfBody(goal: string)
    ensures var body := Body(goal);
            && goal <= body <= goal + "\n" && body[|body| - 1..] == "\n"
            && (body == goal <==> goal != "" && goal[|goal| - 1..] == "\n")
            && Trim(body) == Trim(goal)
  {
    LineEndTrims(goal);
    assert goal <= goal + "\n";
  }

  lemma LineEndTrims(s: string)
    ensures Trim(s + "\n") == Trim(s)
  {
    var t := s + "\n";
    if AllBlank(s) {
      TrimOfBlank(s);
      TrimOfBlank(t);
    } else {
      StartsAlike(s);
      var u := TrimStart(s) + "\n";
      assert u[..|u| - 1] == TrimStart(s);
    }
  }

  lemma {:induction false} StartsAlike(s: string)
    requires !AllBlank(s)
    ensures TrimStart(s + "\n") == TrimStart(s) + "\n"
  {
    if Blank(s[0]) {
      assert (s + "\n")[1..] == s[1..] + "\n";
      StartsAlike(s[1..]);
    }
  }

  lemma TwoLines(a: string, b: string, tail: string)
    ensures Whole([a, b], "\n", tail) == a + ("\n" + (b + ("\n" + tail)))
  {
    assert [a, b][1..] == [b];
  }

  lemma LinesAreClean(id: string, title: string)
    requires IsSlug(id) && OneLine(title)
    ensures CleanLines(["id:" + (" " + id), "title:" + (" " + title)])
    ensures Cut(["id:" + (" " + id), "title:" + (" " + title)]) == 2
  {
    var a, b := "id:" + (" " + id), "title:" + (" " + title);
    assert forall i :: 3 < i < |a| ==> a[i] == id[i - 4];
    assert forall i :: 6 < i < |b| ==> b[i] == title[i - 7];
    assert b[0] == 't' && [a, b][1] == b && [a, b][1..] == [b];
  }

  lemma LinesRead(id: string, title: string)
    requires IsSlug(id) && OneLine(title)
    ensures ReadBlock(["id:" + (" " + id), "title:" + (" " + title)], map[])
         == Ok(map["id" := ValueRead(" " + id), "title" := ValueRead(" " + title)])
  {
    NotAnItem(" " + title);
    TwoEntriesRead("id", " " + id, "title", " " + title);
    assert "id" + ":" == "id:" && "title" + ":" == "title:";
  }

  lemma NotAnItem(text: string)
    ensures !IsItem("title" + ":" + text)
  {
    assert ("title" + ":" + text)[0] == 't';
  }

  lemma TwoEntriesRead(k1: string, t1: string, k2: string, t2: string)
    requires KeyOk(k1) && KeyOk(k2) && k1 != PROTO && k2 != PROTO && k1 != k2
    requires OneLine(t1) && OneLine(t2) && !IsItem(k2 + ":" + t2)
    ensures ReadBlock([k1 + ":" + t1, k2 + ":" + t2], map[]) == Ok(map[k1 := ValueRead(t1), k2 := ValueRead(t2)])
  {
    var a, b := k1 + ":" + t1, k2 + ":" + t2;
    OneEntryRead(k2, t2, [], map[k1 := ValueRead(t1)]);
    assert [b] + [] == [b];
    OneEntryRead(k1, t1, [b], map[]);
    assert [a] + [b] == [a, b];
  }

  lemma ScalarReadBack(s: string)
    ensures ValueRead(" " + s) == Scalar(s) && OneLine(s) <==> ScalarOk(s)
  {
    TrimAfterSpace(s);
    if ScalarOk(s) {
      AfterSpace(s);
    }
    if ValueRead(" " + s) == Scalar(s) {
      TrimSplits(s);
      var a, b :| s == a + Trim(s) + b && AllBlank(a) && AllBlank(b);
      assert |Unquote(Trim(s))| <= |Trim(s)|;
      assert a == "" && b == "" && Trim(s) == s;
    }
  }

  lemma TrimAfterSpace(s: string)
    ensures Trim(" " + s) == Trim(s)
  {
    assert (" " + s)[1..] == s;
  }

  lemma SlugReadBack(id: string)
    requires IsSlug(id)
    ensures ScalarOk(id)
  {
    assert 'a' <= id[0] <= 'z' || '0' <= id[0] <= '9';
  }

  // ----- the two boolean fields -----

  /** Beside its id and title a priority may say of two fields that they are true or false, and nothing else. */
  lemma BooleanFieldDecides(id: string, title: string, key: string, text: string, body: string)
    requires ScalarOk(id) && ScalarOk(title) && ScalarOk(text) && key in {"independent-of-runner", "destructive"}
    ensures Loads(Print([Entry("id", Scalar(id)), Entry("title", Scalar(title)), Entry(key, Scalar(text))], body, "\n"), id)
            <==> text in {"true", "false"}
  {
    hide Parse, Print, Loads, DataOf, Trim;
    var a, b, c := Entry("id", Scalar(id)), Entry("title", Scalar(title)), Entry(key, Scalar(text));
    ThreeFieldsOk(id, title, key, text);
    RoundTripIffFaithful([a, b, c], body, "\n");
    DataOfThree(a, b, c);
    LoadsByField(Print([a, b, c], body, "\n"), id, title, key, text);
  }

  lemma ThreeFieldsOk(id: string, title: string, key: string, text: string)
    requires ScalarOk(id) && ScalarOk(title) && ScalarOk(text) && key in {"independent-of-runner", "destructive"}
    ensures var entries := [Entry("id", Scalar(id)), Entry("title", Scalar(title)), Entry(key, Scalar(text))];
            EntriesOk(entries) && Faithful(entries)
  {
    hide ScalarOk;
    assert KeyOk("id") && KeyOk("title") && KeyOk(key);
  }

  lemma LoadsByField(markdown: string, id: string, title: string, key: string, text: string)
    requires Parse(markdown).Ok? && title != "" && key in {"independent-of-runner", "destructive"}
    requires Parse(markdown).value.data == map["id" := Scalar(id), "title" := Scalar(title), key := Scalar(text)]
    ensures Loads(markdown, id) <==> text in {"true", "false"}
  {
    hide Parse;
    var data := Parse(markdown).value.data;
    assert key in data && data[key] == Scalar(text);
  }

  lemma DataOfThree(a: Entry, b: Entry, c: Entry)
    ensures DataOf([a, b, c]) == map[][a.key := a.value][b.key := b.value][c.key := c.value]
  {
    PutStep(map[], a, [b, c]);
    PutStep(map[][a.key := a.value], b, [c]);
    PutStep(map[][a.key := a.value][b.key := b.value], c, []);
    assert [a] + [b, c] == [a, b, c] && [b] + [c] == [b, c] && [c] + [] == [c];
  }

  lemma PutStep(data: Data, e: Entry, rest: seq<Entry>)
    ensures PutAll(data, [e] + rest) == PutAll(data[e.key := e.value], rest) && PutAll(data, []) == data
  {
    assert ([e] + rest)[1..] == rest;
  }

  // ----- no scalar spans lines -----

  ghost predicate OneLineScalars(data: Data) {
    forall k :: k in data && data[k].Scalar? ==> OneLine(data[k].text)
  }

  lemma {:induction false} OneLineTrimsEnd(s: string)
    requires OneLine(s)
    ensures OneLine(TrimEnd(s))
  {
    if s != "" && Blank(s[|s| - 1]) {
      OneLineTrimsEnd(s[..|s| - 1]);
    }
  }

  lemma KeyValueOneLine(line: string)
    requires KeyValue(line).Some?
    ensures OneLine(KeyValue(line).value.1) && OneLine(Unquote(KeyValue(line).value.1))
  {
    OneLineTrimsEnd(TrimStart(line[KeyLength(line) + 1..]));
  }

  lemma {:induction false} ScalarsStayOneLine(lines: seq<string>, i: nat, data: Data)
    requires i <= |lines| && OneLineScalars(data) && ReadFrom(lines, i, data).Ok?
    ensures OneLineScalars(ReadFrom(lines, i, data).value)
    decreases |lines| - i
  {
    hide Trim, KeyValue, Items, Unquote, OneLine;
    if i < |lines| {
      if Trim(lines[i]) == "" {
        ScalarsStayOneLine(lines, i + 1, data);
      } else {
        KeyValueOneLine(lines[i]);
        var (key, rest) := KeyValue(lines[i]).value;
        if rest == "" || rest == "|" {
          var items := Items(lines[i + 1..]);
          ScalarsStayOneLine(lines, i + 1 + |items|, Assign(data, key, List(items)));
        } else if rest == "[]" {
          ScalarsStayOneLine(lines, i + 1, Assign(data, key, List([])));
        } else {
          ScalarsStayOneLine(lines, i + 1, Assign(data, key, Scalar(Unquote(rest))));
        }
      }
    }
  }

  /** The parser never reads a scalar over a line break. */
  lemma ParsedScalarsAreOneLine(markdown: string)
    requires Parse(markdown).Ok?
    ensures OneLineScalars(Parse(markdown).value.data)
  {
    var text := if BOM <= markdown then markdown[1..] else markdown;
    var (yaml, body) := Delimited(text).value;
    var lines := SplitLines(yaml);
    ReadFromIsReadBlock(lines, 0, map[]);
    assert lines[0..] == lines;
    ScalarsStayOneLine(lines, 0, map[]);
  }

  // ----- main result -----

  lemma ValidatesOneLine(id: string, title: string, goal: string)
    requires IsSlug(id) && OneLine(title)
    ensures Validates(ComposePriorityMarkdown(id, title, goal), id, title) <==> ValueRead(" " + title) == Scalar(title) && title != ""
  {
    ComposeRead(id, title, goal);
    SlugReadBack(id);
    ScalarReadBack(id);
    ValidatesData(ComposePriorityMarkdown(id, title, goal), id, title, ValueRead(" " + title));
  }

  lemma ValidatesData(markdown: string, id: string, title: string, read: Value)
    requires Parse(markdown).Ok? && Parse(markdown).value.data == map["id" := Scalar(id), "title" := read]
    ensures Validates(markdown, id, title) <==> read == Scalar(title) && title != ""
  {
    hide Parse;
    var data := Parse(markdown).value.data;
    assert data["title"] == read;
  }

  lemma ValidTitleIsOneLine(markdown: string, id: string, title: string)
    requires Validates(markdown, id, title)
    ensures OneLine(title)
  {
    ParsedScalarsAreOneLine(markdown);
    assert OneLine(Parse(markdown).value.data["title"].text);
  }

  /** A created priority reads back as what was asked for exactly when its title is one trimmed,
      unquoted line that does not look like an empty or block list, whatever the goal says. */
  lemma {:induction false} ValidatesIffTitleSurvives(id: string, title: string, goal: string)
    requires IsSlug(id)
    ensures Validates(ComposePriorityMarkdown(id, title, goal), id, title) <==> ScalarOk(title)
  {
    ScalarReadBack(title);
    if OneLine(title) {
      ValidatesOneLine(id, title, goal);
    } else if Validates(ComposePriorityMarkdown(id, title, goal), id, title) {
      ValidTitleIsOneLine(ComposePriorityMarkdown(id, title, goal), id, title);
    }
  }
}
