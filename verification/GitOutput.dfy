/** The two parsers of git's machine-readable output (packages/core/src/commit-gate/git.ts). */
module GitOutput {
  import opened Outcomes

  const NUL: char := '\0'

  // ----- splitting on a separator -----

  /** `s.split(sep)`: always one field more than there are separators. */
  function Split(s: string, sep: char): (fields: seq<string>)
    ensures fields != []
    decreases |s|
  {
    if s == "" then [""]
    else if s[0] == sep then [""] + Split(s[1..], sep)
    else
      var rest := Split(s[1..], sep);
      [[s[0]] + rest[0]] + rest[1..]
  }

  lemma {:induction false} SplitField(field: string, rest: string, sep: char)
    requires sep !in field
    ensures Split(field + [sep] + rest, sep) == [field] + Split(rest, sep)
    decreases |field|
  {
    var s := field + [sep] + rest;
    if field == "" {
      assert s[1..] == rest;
    } else {
      assert s[0] == field[0] && field[0] in field;
      assert s[1..] == field[1..] + [sep] + rest;
      SplitField(field[1..], rest, sep);
      assert [field[0]] + field[1..] == field;
    }
  }

  // ----- git status --porcelain -z -----

  /** One status record: two status letters, the path, and the original path of a rename or copy. */
  datatype Status = Status(xy: string, path: string, orig: string)

  predicate StatusOk(r: Status) {
    && |r.xy| == 2 && '\0' !in r.xy
    && r.path != "" && '\0' !in r.path
    && '\0' !in r.orig && ('R' in r.xy ==> r.orig != "")
  }

  /** What git prints: letters, a blank and the path, each record ended by NUL; renames and copies are
      followed by the original path. */
  function RecordText(r: Status): string {
    r.xy + " " + r.path + "\0" + (if 'R' in r.xy || 'C' in r.xy then r.orig + "\0" else "")
  }

  function Render(records: seq<Status>): string {
    if records == [] then "" else RecordText(records[0]) + Render(records[1..])
  }

  /** The changed paths of a record: both ends of a rename, only the new path of a copy. */
  function PathsOf(r: Status): seq<string> {
    if 'R' in r.xy then [r.path, r.orig] else [r.path]
  }

  function Changed(records: seq<Status>): seq<string> {
    if records == [] then [] else PathsOf(records[0]) + Changed(records[1..])
  }

  // ----- the reading -----

  predicate Renamed(xy: string) { 'R' in xy }

  predicate Copied(xy: string) { 'C' in xy && 'R' !in xy }

  /** The paths recorded at field `i`, and where reading goes on. */
  function Taken(fields: seq<string>, i: nat): seq<string>
    requires i < |fields|
  {
    var f := fields[i];
    if |f| < 4 then []
    else if Renamed(f[..2]) && i + 1 < |fields| && fields[i + 1] != "" then [f[3..], fields[i + 1]]
    else [f[3..]]
  }

  function Onward(fields: seq<string>, i: nat): (j: nat)
    requires i < |fields|
    ensures i < j
  {
    if |fields[i]| >= 4 && (Renamed(fields[i][..2]) || Copied(fields[i][..2])) then i + 2 else i + 1
  }

  /** What the fields of a status output are read as, from field `i` on. */
  function ReadFields(fields: seq<string>, i: nat): seq<string>
    decreases |fields| - i
  {
    if i >= |fields| then [] else Taken(fields, i) + ReadFields(fields, Onward(fields, i))
  }

  method ParsePorcelain(porcelainZ: string) returns (files: seq<string>)
    ensures files == ReadFields(Split(porcelainZ, NUL), 0)
  {
    hide Split, ReadFields;
    files := [];
    var records := Split(porcelainZ, NUL);
    var i := 0;
    assert [] + ReadFields(records, 0) == ReadFields(records, 0);
    while i < |records|
      invariant 0 <= i
      invariant files + ReadFields(records, i) == ReadFields(records, 0)
      decreases |records| - i
    {
      FieldStep(files, records, i);
      var rec := records[i];
      if |rec| < 4 {
        i := i + 1;
        continue;
      }
      var xy := rec[..2];
      files := files + [rec[3..]];
      if 'R' in xy {
        i := i + 1;
        if i < |records| && records[i] != "" {
          files := files + [records[i]];
        }
      } else if 'C' in xy {
        i := i + 1;
      }
      i := i + 1;
    }
    FieldsEnd(files, records, i);
  }

  lemma FieldStep(files: seq<string>, fields: seq<string>, i: nat)
    requires i < |fields|
    ensures files + ReadFields(fields, i) == (files + Taken(fields, i)) + ReadFields(fields, Onward(fields, i))
    ensures Taken(fields, i) == [] ==> files + Taken(fields, i) == files
    ensures |Taken(fields, i)| == 2 ==> files + Taken(fields, i) == files + [Taken(fields, i)[0]] + [Taken(fields, i)[1]]
  {
  }

  lemma FieldsEnd(files: seq<string>, fields: seq<string>, i: nat)
    requires i >= |fields|
    ensures files + ReadFields(fields, i) == files
  {
  }

  lemma {:induction false} ReadFieldsTail(head: seq<string>, fields: seq<string>, i: nat)
    ensures ReadFields(head + fields, |head| + i) == ReadFields(fields, i)
    decreases |fields| - i
  {
    hide Taken, Onward;
    if i < |fields| {
      TakenTail(head, fields, i);
      ReadFieldsTail(head, fields, Onward(fields, i));
    }
  }

  lemma TakenTail(head: seq<string>, fields: seq<string>, i: nat)
    requires i < |fields|
    ensures Taken(head + fields, |head| + i) == Taken(fields, i)
    ensures Onward(head + fields, |head| + i) == |head| + Onward(fields, i)
  {
    hide Renamed, Copied;
    assert (head + fields)[|head| + i] == fields[i];
    assert i + 1 < |fields| ==> (head + fields)[|head| + i + 1] == fields[i + 1];
  }

  lemma {:induction false} RecordRead(r: Status, rest: string)
    requires StatusOk(r)
    ensures ReadFields(Split(RecordText(r) + rest, NUL), 0) == PathsOf(r) + ReadFields(Split(rest, NUL), 0)
  {
    hide Split;
    var field, others := r.xy + " " + r.path, Split(rest, NUL);
    assert field[..2] == r.xy && field[3..] == r.path;
    if Renamed(r.xy) || Copied(r.xy) {
      var tail := r.orig + [NUL] + rest;
      assert RecordText(r) + rest == field + [NUL] + tail;
      SplitField(field, tail, NUL);
      SplitField(r.orig, rest, NUL);
      assert [field] + ([r.orig] + others) == [field, r.orig] + others;
      ReadFieldsTail([field, r.orig], others, 0);
    } else {
      assert RecordText(r) + rest == field + [NUL] + rest;
      SplitField(field, rest, NUL);
      ReadFieldsTail([field], others, 0);
    }
  }

  /** Reading back the rendering of any status gives its changed paths, in order and verbatim. */
  lemma {:induction false} PorcelainRoundTrip(records: seq<Status>)
    requires forall i :: 0 <= i < |records| ==> StatusOk(records[i])
    ensures ReadFields(Split(Render(records), NUL), 0) == Changed(records)
    decreases |records|
  {
    if records != [] {
      PorcelainRoundTrip(records[1..]);
      RecordRead(records[0], Render(records[1..]));
    }
  }

  // ----- git worktree list --porcelain -----

  datatype Worktree = Worktree(path: string, head: string, branch: Option<string>)

  const WORKTREE := "worktree "
  const HEAD := "HEAD "
  const BRANCH := "branch refs/heads/"

  /** The block under construction and the blocks already flushed. */
  datatype Blocks = Blocks(done: seq<Worktree>, path: Option<string>, head: string, branch: Option<string>)

  function Flush(b: Blocks): Blocks {
    Blocks(if b.path.Some? then b.done + [Worktree(b.path.value, b.head, b.branch)] else b.done, None, "", None)
  }

  function ReadLine(b: Blocks, line: string): Blocks {
    if WORKTREE <= line then Flush(b).(path := Some(line[|WORKTREE|..]))
    else if HEAD <= line then b.(head := line[|HEAD|..])
    else if "branch " <= line then b.(branch := Some(if |line| >= |BRANCH| then line[|BRANCH|..] else ""))
    else b
  }

  function ReadLines(b: Blocks, lines: seq<string>): Blocks
    decreases |lines|
  {
    if lines == [] then b else ReadLines(ReadLine(b, lines[0]), lines[1..])
  }

  method ListWorktrees(out: string) returns (infos: seq<Worktree>)
    ensures infos == Flush(ReadLines(Blocks([], None, "", None), Split(out, '\n'))).done
  {
    infos := [];
    var path: Option<string> := None;
    var head := "";
    var branch: Option<string> := None;
    var lines := Split(out, '\n');
    assert lines[0..] == lines;
    for i := 0 to |lines|
      invariant ReadLines(Blocks([], None, "", None), lines)
             == ReadLines(Blocks(infos, path, head, branch), lines[i..])
    {
      var line := lines[i];
      assert lines[i..][0] == line && lines[i..][1..] == lines[i + 1..];
      if WORKTREE <= line {
        if path.Some? {
          infos := infos + [Worktree(path.value, head, branch)];
        }
        path, head, branch := Some(line[|WORKTREE|..]), "", None;
      } else if HEAD <= line {
        head := line[|HEAD|..];
      } else if "branch " <= line {
        branch := Some(if |line| >= |BRANCH| then line[|BRANCH|..] else "");
      }
    }
    if path.Some? {
      infos := infos + [Worktree(path.value, head, branch)];
    }
  }

  /** The block git prints for a worktree: a bare one has no HEAD line, a detached one no branch line. */
  function BlockLines(w: Worktree): seq<string> {
    ["worktree " + w.path]
    + (if w.head == "" then ["bare"] else ["HEAD " + w.head])
    + (if w.branch.Some? then ["branch refs/heads/" + w.branch.value] else if w.head == "" then [] else ["detached"])
    + [""]
  }

  function ListLines(ws: seq<Worktree>): seq<string> {
    if ws == [] then [""] else BlockLines(ws[0]) + ListLines(ws[1..])
  }

  /** Lines joined by newlines. */
  function Joined(lines: seq<string>): string
    requires lines != []
  {
    if |lines| == 1 then lines[0] else lines[0] + "\n" + Joined(lines[1..])
  }

  lemma {:induction false} SplitJoined(lines: seq<string>)
    requires lines != [] && forall i :: 0 <= i < |lines| ==> '\n' !in lines[i]
    ensures Split(Joined(lines), '\n') == lines
    decreases |lines|
  {
    if |lines| == 1 {
      SplitPlain(lines[0], '\n');
    } else {
      SplitJoined(lines[1..]);
      SplitField(lines[0], Joined(lines[1..]), '\n');
    }
  }

  lemma {:induction false} SplitPlain(s: string, sep: char)
    requires sep !in s
    ensures Split(s, sep) == [s]
    decreases |s|
  {
    if s != "" {
      assert s[0] in s;
      SplitPlain(s[1..], sep);
      assert [s[0]] + s[1..] == s;
    }
  }

  predicate WorktreeOk(w: Worktree) {
    && '\n' !in w.path && '\n' !in w.head
    && (w.branch.Some? ==> '\n' !in w.branch.value)
  }

  lemma {:induction false} ReadLinesSplit(b: Blocks, xs: seq<string>, ys: seq<string>)
    ensures ReadLines(b, xs + ys) == ReadLines(ReadLines(b, xs), ys)
    decreases |xs|
  {
    if xs == [] {
      assert xs + ys == ys;
    } else {
      assert (xs + ys)[1..] == xs[1..] + ys;
      ReadLinesSplit(ReadLine(b, xs[0]), xs[1..], ys);
    }
  }

  lemma {:induction false} BlockRead(b: Blocks, w: Worktree)
    ensures ReadLines(b, BlockLines(w)) == Blocks(Flush(b).done, Some(w.path), w.head, w.branch)
  {
    var begun := Flush(b).(path := Some(w.path));
    var first, second := WORKTREE + w.path, if w.head == "" then "bare" else HEAD + w.head;
    assert ReadLine(b, first) == begun;
    assert second[0] != 'w';
    var headed := begun.(head := w.head);
    assert ReadLine(begun, second) == headed;
    var third := if w.branch.Some? then BRANCH + w.branch.value else "detached";
    assert third[0] != 'w' && third[0] != 'H';
    assert ReadLine(headed, third) == headed.(branch := w.branch);
    var done := headed.(branch := w.branch);
    assert ReadLine(done, "") == done;
    ReadOne(b, first);
    ReadOne(begun, second);
    ReadOne(headed, third);
    ReadOne(done, "");
    var branchLines := if w.branch.Some? || w.head != "" then [third] else [];
    assert ReadLines(headed, branchLines) == done;
    ReadLinesSplit(b, [first], [second]);
    ReadLinesSplit(b, [first] + [second], branchLines);
    ReadLinesSplit(b, [first] + [second] + branchLines, [""]);
    assert BlockLines(w) == [first] + [second] + branchLines + [""];
  }

  lemma ReadOne(b: Blocks, line: string)
    ensures ReadLines(b, [line]) == ReadLine(b, line)
  {
    assert [line][1..] == [];
  }

  lemma {:induction false} BlocksRead(b: Blocks, ws: seq<Worktree>)
    ensures Flush(ReadLines(b, ListLines(ws))).done == Flush(b).done + ws
    decreases |ws|
  {
    if ws == [] {
      assert ReadLine(b, "") == b;
      assert [""][1..] == [];
    } else {
      ReadLinesSplit(b, BlockLines(ws[0]), ListLines(ws[1..]));
      BlockRead(b, ws[0]);
      BlocksRead(ReadLines(b, BlockLines(ws[0])), ws[1..]);
    }
  }

  /** Reading back git's listing of any worktrees gives the same worktrees, in order. */
  lemma {:induction false} WorktreeRoundTrip(ws: seq<Worktree>)
    requires forall i :: 0 <= i < |ws| ==> WorktreeOk(ws[i])
    ensures ListLines(ws) != []
    ensures Flush(ReadLines(Blocks([], None, "", None), Split(Joined(ListLines(ws)), '\n'))).done == ws
  {
    LinesPlain(ws);
    SplitJoined(ListLines(ws));
    BlocksRead(Blocks([], None, "", None), ws);
  }

  lemma {:induction false} LinesPlain(ws: seq<Worktree>)
    requires forall i :: 0 <= i < |ws| ==> WorktreeOk(ws[i])
    ensures ListLines(ws) != [] && forall i :: 0 <= i < |ListLines(ws)| ==> '\n' !in ListLines(ws)[i]
    decreases |ws|
  {
    if ws != [] {
      LinesPlain(ws[1..]);
      assert WorktreeOk(ws[0]);
    }
  }
}
