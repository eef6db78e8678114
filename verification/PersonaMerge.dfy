/** A persona's repository delta laid over its base (packages/core/src/personas/merge.ts). */
module PersonaMerge {
  import opened Outcomes
  import opened Sequences
  import opened Text

  datatype Persona = Persona(id: string, caption: string, role: string, writeScope: seq<string>, body: string)

  datatype Delta = Delta(
    id: string, caption: Option<string>, role: Option<string>, writeScope: Option<seq<string>>, body: Option<string>)

  const BODY_DELTA_SEPARATOR := "\n\n---\n\n"

  function Or<T>(o: Option<T>, d: T): T {
    if o.Some? then o.value else d
  }

  /** The delta's entries the base lacks, each once, in the delta's order. */
  function Added(base: seq<string>, delta: seq<string>): seq<string> {
    Filter(Unique(delta), e => e !in base)
  }

  method MergeWriteScope(base: seq<string>, delta: Option<seq<string>>) returns (merged: seq<string>)
    ensures merged == base + Added(base, Or(delta, []))
  {
    hide Added;
    AddNone(base);
    merged := base;
    var seen := set e | e in base;
    var entries := Or(delta, []);
    for i := 0 to |entries|
      invariant merged == base + Added(base, entries[..i])
      invariant forall e :: e in seen <==> e in base || e in entries[..i]
    {
      AddOneMore(base, entries[..i], entries[i]);
      assert entries[..i + 1] == entries[..i] + [entries[i]];
      Regroup(base, Added(base, entries[..i]), [entries[i]]);
      if entries[i] !in seen {
        merged := merged + [entries[i]];
        seen := seen + {entries[i]};
      }
    }
    assert entries[..|entries|] == entries;
  }

  lemma AddNone(base: seq<string>)
    ensures base + Added(base, []) == base
  {
  }

  lemma Regroup(a: seq<string>, b: seq<string>, c: seq<string>)
    ensures (a + b) + c == a + (b + c)
  {
  }

  lemma AddOneMore(base: seq<string>, delta: seq<string>, e: string)
    ensures Added(base, delta + [e]) == if e in base || e in delta then Added(base, delta) else Added(base, delta) + [e]
  {
    assert (delta + [e])[..|delta|] == delta;
    assert (Unique(delta) + [e])[..|Unique(delta)|] == Unique(delta);
  }

  function MergeBody(base: string, delta: Option<string>): string {
    if delta.None? || Trim(delta.value) == "" then base
    else TrimEnd(base) + BODY_DELTA_SEPARATOR + TrimStart(delta.value)
  }

  method MergePersona(base: Persona, delta: Delta) returns (r: Result<Persona>)
    ensures r.Ok? <==> base.id == delta.id
    ensures r.Ok? ==>
              && (match delta.caption case Some(c) => r.value.caption == c case None => r.value.caption == base.caption)
              && (match delta.role case Some(c) => r.value.role == c case None => r.value.role == base.role)
              && (delta.writeScope.None? ==> r.value.writeScope == base.writeScope)
    ensures r.Ok? ==>
              r.value == Persona(base.id, Or(delta.caption, base.caption), Or(delta.role, base.role),
                                 base.writeScope + Added(base.writeScope, Or(delta.writeScope, [])),
                                 MergeBody(base.body, delta.body))
  {
    if base.id != delta.id {
      return Err("persona delta id does not match base persona id");
    }
    var scope := MergeWriteScope(base.writeScope, delta.writeScope);
    AddNone(base.writeScope);
    r := Ok(Persona(base.id, Or(delta.caption, base.caption), Or(delta.role, base.role), scope, MergeBody(base.body, delta.body)));
  }

  /** The merged scope grants what base and delta grant and nothing else, repeats nothing the base did not
      repeat, and a delta merged a second time adds nothing. */
  lemma {:induction false} MergedScope(base: seq<string>, delta: seq<string>)
    ensures var merged := base + Added(base, delta);
            && (forall e :: e in merged <==> e in base || e in delta)
            && (Distinct(base) ==> Distinct(merged))
            && merged + Added(merged, delta) == merged
  {
    var added := Added(base, delta);
    DistinctFilter(Unique(delta), e => e !in base);
    FilterAll(Unique(delta), e => e !in base + added);
    forall i, j | 0 <= i < j < |base + added| && Distinct(base) ensures (base + added)[i] != (base + added)[j] {
      if i < |base| <= j {
        assert added[j - |base|] in added;
      }
    }
  }

  lemma {:induction false} DistinctFilter<T(!new)>(s: seq<T>, keep: T -> bool)
    requires Distinct(s)
    ensures Distinct(Filter(s, keep))
  {
    if s != [] {
      DistinctFilter(s[..|s| - 1], keep);
      assert s[|s| - 1] !in s[..|s| - 1];
    }
  }

  /** A body that says something follows the base's text under the separator: of either nothing but the blanks
      that end the base and begin the delta is left out. */
  lemma BodiesJoined(base: string, delta: string) returns (kept: string, gap: string, lead: string, rest: string)
    requires exists i :: 0 <= i < |delta| && !Blank(delta[i])
    ensures base == kept + gap && AllBlank(gap) && (kept == "" || !Blank(kept[|kept| - 1]))
    ensures delta == lead + rest && AllBlank(lead) && rest != "" && !Blank(rest[0])
    ensures MergeBody(base, Some(delta)) == kept + "\n\n---\n\n" + rest
  {
    TrimOfBlank(delta);
    kept := TrimEnd(base);
    gap := TrimEndSplits(base);
    rest, lead := TrimStartSplits(delta);
  }

  /** A blank delta body leaves the base body as it is. */
  lemma BlankBodyKeepsBase(base: string, delta: string)
    ensures AllBlank(delta) ==> MergeBody(base, Some(delta)) == base
    ensures !AllBlank(delta) ==> TrimEnd(base) + BODY_DELTA_SEPARATOR <= MergeBody(base, Some(delta))
  {
    TrimOfBlank(delta);
  }
}
