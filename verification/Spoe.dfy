/**
 The SPOE side of internal/enginepkg/spoa.go that works on decoded messages: reading request fields from key-value
 entries, and writing the list of matched rule ids.
 */
module Spoe {
  import opened Wrappers
  import opened Numerals
  import opened Sequences

  // ----- Request fields -----

  datatype Entry = Entry(name: string, value: string)

  datatype Request = Request(method_: string, path: string, query: string, reqVer: string, hdrsBin: string, bodyBytes: string)

  datatype FieldName = Method | Path | Query | ReqVer | HdrsBin | Body

  /** The field table: wire name and position in the positional form. */
  datatype FieldSpec = FieldSpec(name: string, position: nat, field: FieldName)

  const FIELDS: seq<FieldSpec> := [
    FieldSpec("method", 1, Method),
    FieldSpec("path", 2, Path),
    FieldSpec("query", 3, Query),
    FieldSpec("req.ver", 4, ReqVer),
    FieldSpec("req.hdrs_bin", 5, HdrsBin),
    FieldSpec("req.body", 7, Body)
  ]

  function Assign(r: Request, f: FieldName, v: string): Request {
    match f
    case Method => r.(method_ := v)
    case Path => r.(path := v)
    case Query => r.(query := v)
    case ReqVer => r.(reqVer := v)
    case HdrsBin => r.(hdrsBin := v)
    case Body => r.(bodyBytes := v)
  }

  /** The entry at `idx` is meant for this field: by name, or unnamed and in its place. */
  predicate Matches(e: Entry, idx: nat, s: FieldSpec) {
    e.name == s.name || (e.name == "" && idx == s.position)
  }

  function SpecOf(f: FieldName): FieldSpec {
    match f
    case Method => FIELDS[0]
    case Path => FIELDS[1]
    case Query => FIELDS[2]
    case ReqVer => FIELDS[3]
    case HdrsBin => FIELDS[4]
    case Body => FIELDS[5]
  }

  /** The value of the last entry meant for the field, or the empty string. */
  function LastValue(es: seq<Entry>, f: FieldName): string {
    if es == [] then ""
    else
      var n := |es| - 1;
      if Matches(es[n], n, SpecOf(f)) then es[n].value else LastValue(es[..n], f)
  }

  const NO_REQUEST := Request("", "", "", "", "", "")

  function Raw(es: seq<Entry>): Request {
    Request(LastValue(es, Method), LastValue(es, Path), LastValue(es, Query), LastValue(es, ReqVer),
            LastValue(es, HdrsBin), LastValue(es, Body))
  }

  function WithDefaults(r: Request): Request { if r.reqVer == "" then r.(reqVer := "1.1") else r }

  // The request by wire name and place, in the words of the SPOE configuration.

  predicate Meant(e: Entry, idx: int, name: string, place: int) { e.name == name || (e.name == "" && idx == place) }

  /** `value` is that of the last entry with this name, or unnamed in this place; without one it is empty. */
  ghost predicate IsLast(value: string, es: seq<Entry>, name: string, place: int) {
    || (value == "" && forall i :: 0 <= i < |es| ==> !Meant(es[i], i, name, place))
    || (exists i ::
          && 0 <= i < |es| && Meant(es[i], i, name, place) && value == es[i].value
          && forall j :: i < j < |es| ==> !Meant(es[j], j, name, place))
  }

  ghost predicate ByName(r: Request, es: seq<Entry>) {
    && IsLast(r.method_, es, "method", 1)
    && IsLast(r.path, es, "path", 2)
    && IsLast(r.query, es, "query", 3)
    && (exists version :: IsLast(version, es, "req.ver", 4) && r.reqVer == if version == "" then "1.1" else version)
    && IsLast(r.hdrsBin, es, "req.hdrs_bin", 5)
    && IsLast(r.bodyBytes, es, "req.body", 7)
  }

  lemma {:induction false} LastValueIsLast(es: seq<Entry>, f: FieldName)
    ensures IsLast(LastValue(es, f), es, SpecOf(f).name, SpecOf(f).position)
  {
    hide SpecOf;
    if es != [] {
      var n := |es| - 1;
      var front := es[..n];
      LastValueIsLast(front, f);
      if !Matches(es[n], n, SpecOf(f)) {
        LastOfMore(LastValue(front, f), es, SpecOf(f).name, SpecOf(f).position);
      }
    }
  }

  /** An entry meant for another field changes nothing. */
  lemma LastOfMore(value: string, es: seq<Entry>, name: string, place: int)
    requires es != [] && !Meant(es[|es| - 1], |es| - 1, name, place) && IsLast(value, es[..|es| - 1], name, place)
    ensures IsLast(value, es, name, place)
  {
    hide Meant;
    var front := es[..|es| - 1];
    assert forall i :: 0 <= i < |front| ==> front[i] == es[i];
    if exists i :: 0 <= i < |front| && Meant(front[i], i, name, place) {
      var i :| 0 <= i < |front| && Meant(front[i], i, name, place) && value == front[i].value
               && forall j :: i < j < |front| ==> !Meant(front[j], j, name, place);
      assert Meant(es[i], i, name, place) && value == es[i].value;
    }
  }

  lemma RequestIsByName(es: seq<Entry>)
    ensures ByName(WithDefaults(Raw(es)), es)
  {
    hide IsLast, LastValue;
    LastValueIsLast(es, Method);
    LastValueIsLast(es, Path);
    LastValueIsLast(es, Query);
    LastValueIsLast(es, ReqVer);
    LastValueIsLast(es, HdrsBin);
    LastValueIsLast(es, Body);
    assert IsLast(LastValue(es, ReqVer), es, "req.ver", 4);
  }

  /** Each field is the value of its last matching entry, whatever the order of the table. */
  method ParseSPOERequest(es: seq<Entry>, scanError: Option<string>) returns (r: Result<Request, string>)
    ensures r == if scanError.Some? then Err(scanError.value) else Ok(WithDefaults(Raw(es)))
    ensures scanError.None? ==> r.Ok? && ByName(r.value, es)
  {
    hide ByName;
    RequestIsByName(es);
    var req := NO_REQUEST;
    for idx := 0 to |es|
      invariant req == Raw(es[..idx])
    {
      assert es[..idx + 1][..idx] == es[..idx];
      ghost var before := req;
      ghost var hit := false;
      for k := 0 to |FIELDS|
        invariant req == before
        invariant forall l :: 0 <= l < k ==> !Matches(es[idx], idx, FIELDS[l])
      {
        if es[idx].name == FIELDS[k].name || (es[idx].name == "" && idx == FIELDS[k].position) {
          req := Assign(req, FIELDS[k].field, es[idx].value);
          hit := true;
          OneFieldMatches(es[idx], idx, k);
          break;
        }
      }
      RawStep(es[..idx + 1], before, req, hit);
    }
    assert es[..|es|] == es;
    if scanError.Some? {
      return Err(scanError.value);
    }
    if req.reqVer == "" {
      req := req.(reqVer := "1.1");
    }
    return Ok(req);
  }

  /** No entry is meant for two fields. */
  lemma OneFieldMatches(e: Entry, idx: nat, k: nat)
    requires k < |FIELDS| && Matches(e, idx, FIELDS[k])
    ensures forall l :: 0 <= l < |FIELDS| && l != k ==> !Matches(e, idx, FIELDS[l])
  {
  }

  lemma NamesAreDistinct()
    ensures forall i, j :: 0 <= i < j < |FIELDS| ==>
              FIELDS[i].name != FIELDS[j].name && FIELDS[i].position != FIELDS[j].position
    ensures forall i :: 0 <= i < |FIELDS| ==> FIELDS[i].name != "" && FIELDS[i].position < 8
    ensures forall f :: SpecOf(f) in FIELDS && SpecOf(f).field == f
  {
  }

  lemma RawStep(es: seq<Entry>, before: Request, after: Request, hit: bool)
    requires es != [] && before == Raw(es[..|es| - 1])
    requires hit ==>
               (exists k :: 0 <= k < |FIELDS| && Matches(es[|es| - 1], |es| - 1, FIELDS[k])
                            && after == Assign(before, FIELDS[k].field, es[|es| - 1].value))
    requires !hit ==> after == before && forall k :: 0 <= k < |FIELDS| ==> !Matches(es[|es| - 1], |es| - 1, FIELDS[k])
    ensures after == Raw(es)
  {
  }

  // ----- What the last-match rule gives -----

  /** `i` is the last entry meant for the field. */
  ghost predicate LastMatchAt(es: seq<Entry>, f: FieldName, i: int) {
    && 0 <= i < |es|
    && Matches(es[i], i, SpecOf(f))
    && forall j :: i < j < |es| ==> !Matches(es[j], j, SpecOf(f))
  }

  lemma {:induction false} LastMatchWins(es: seq<Entry>, f: FieldName, i: int)
    requires LastMatchAt(es, f, i)
    ensures LastValue(es, f) == es[i].value
    decreases |es|
  {
    hide SpecOf, Matches;
    var n := |es| - 1;
    if i < n {
      LastMatchWins(es[..n], f, i);
    }
  }

  lemma {:induction false} NoMatchNoValue(es: seq<Entry>, f: FieldName)
    requires forall i :: 0 <= i < |es| ==> !Matches(es[i], i, SpecOf(f))
    ensures LastValue(es, f) == ""
  {
    hide SpecOf, Matches;
    if es != [] {
      NoMatchNoValue(es[..|es| - 1], f);
    }
  }

  lemma SameFieldsSameRequest(a: seq<Entry>, b: seq<Entry>)
    requires forall f :: LastValue(a, f) == LastValue(b, f)
    ensures Raw(a) == Raw(b)
  {
  }

  /** The default argument order, with the two arguments the WAF does not use. */
  const DEFAULT_ORDER: seq<string> :=
    ["unique-id", "method", "path", "query", "req.ver", "req.hdrs_bin", "req.body_size", "req.body"]

  function Named(values: seq<string>, i: nat): seq<Entry>
    requires |values| <= 8 && i <= |values|
    ensures |Named(values, i)| == i
    ensures forall j :: 0 <= j < i ==> Named(values, i)[j] == Entry(DEFAULT_ORDER[j], values[j])
  {
    if i == 0 then [] else Named(values, i - 1) + [Entry(DEFAULT_ORDER[i - 1], values[i - 1])]
  }

  function Positional(values: seq<string>, i: nat): seq<Entry>
    requires i <= |values|
    ensures |Positional(values, i)| == i
    ensures forall j :: 0 <= j < i ==> Positional(values, i)[j] == Entry("", values[j])
  {
    if i == 0 then [] else Positional(values, i - 1) + [Entry("", values[i - 1])]
  }

  lemma DefaultOrderFits(f: FieldName, j: nat, v: string)
    requires j < 8
    ensures Matches(Entry(DEFAULT_ORDER[j], v), j, SpecOf(f)) <==> Matches(Entry("", v), j, SpecOf(f))
  {
  }

  /** Entries with the same values, meant for the field at the same places, give it the same value. */
  lemma {:induction false} SameMatchesSameValue(a: seq<Entry>, b: seq<Entry>, f: FieldName)
    requires |a| == |b| && forall j :: 0 <= j < |a| ==> a[j].value == b[j].value
    requires forall j :: 0 <= j < |a| ==> (Matches(a[j], j, SpecOf(f)) <==> Matches(b[j], j, SpecOf(f)))
    ensures LastValue(a, f) == LastValue(b, f)
  {
    hide Matches, SpecOf;
    if a != [] {
      SameMatchesSameValue(a[..|a| - 1], b[..|b| - 1], f);
    }
  }

  lemma PositionalFieldIsNamedField(values: seq<string>, f: FieldName)
    requires |values| <= 8
    ensures LastValue(Positional(values, |values|), f) == LastValue(Named(values, |values|), f)
  {
    hide SpecOf, Matches, LastValue;
    var p, q := Positional(values, |values|), Named(values, |values|);
    hide Positional, Named;
    forall j | 0 <= j < |values| ensures Matches(p[j], j, SpecOf(f)) <==> Matches(q[j], j, SpecOf(f)) {
      DefaultOrderFits(f, j, values[j]);
    }
    SameMatchesSameValue(p, q, f);
  }

  /** A message in the default order parses the same with and without its names, also when cut short. */
  lemma PositionalFormIsNamedForm(values: seq<string>)
    requires |values| <= 8
    ensures Raw(Positional(values, |values|)) == Raw(Named(values, |values|))
  {
    hide LastValue, Raw, SpecOf, Named, Positional;
    forall f ensures LastValue(Positional(values, |values|), f) == LastValue(Named(values, |values|), f) {
      PositionalFieldIsNamedField(values, f);
    }
    SameFieldsSameRequest(Positional(values, |values|), Named(values, |values|));
  }

  lemma OneTrailing(es: seq<Entry>, e: Entry, f: FieldName)
    requires |es| >= 8 && e.name == ""
    ensures LastValue(es + [e], f) == LastValue(es, f)
  {
    NamesAreDistinct();
    assert SpecOf(f) in FIELDS;
    assert (es + [e])[..|es|] == es;
    hide SpecOf, FIELDS;
  }

  /** Unnamed entries from index 8 on are ignored. */
  lemma {:induction false} TrailingUnnamedIgnored(es: seq<Entry>, extra: seq<Entry>)
    requires |es| >= 8 && forall i :: 0 <= i < |extra| ==> extra[i].name == ""
    ensures Raw(es + extra) == Raw(es)
  {
    hide LastValue;
    if extra == [] {
      assert es + extra == es;
    } else {
      var n := |extra| - 1;
      TrailingUnnamedIgnored(es, extra[..n]);
      assert es + extra == (es + extra[..n]) + [extra[n]];
      forall f ensures LastValue(es + extra, f) == LastValue(es + extra[..n], f) {
        OneTrailing(es + extra[..n], extra[n], f);
      }
    }
  }

  /** All entries are named, with pairwise different names. */
  ghost predicate DistinctlyNamed(es: seq<Entry>) {
    && (forall i :: 0 <= i < |es| ==> es[i].name != "")
    && (forall i, j :: 0 <= i < j < |es| ==> es[i].name != es[j].name)
  }

  lemma NamedFieldValue(es: seq<Entry>, f: FieldName, i: nat)
    requires DistinctlyNamed(es) && i < |es| && es[i].name == SpecOf(f).name
    ensures LastValue(es, f) == es[i].value
  {
  }

  /** Distinctly named entries may come in any order. */
  lemma OrderDoesNotMatter(a: seq<Entry>, b: seq<Entry>)
    requires DistinctlyNamed(a) && DistinctlyNamed(b) && multiset(a) == multiset(b)
    ensures Raw(a) == Raw(b)
  {
    hide SpecOf, LastValue, Raw;
    forall f ensures LastValue(a, f) == LastValue(b, f) {
      if exists i :: 0 <= i < |a| && a[i].name == SpecOf(f).name {
        var i :| 0 <= i < |a| && a[i].name == SpecOf(f).name;
        assert a[i] in multiset(a);
        assert a[i] in multiset(b);
        var j :| 0 <= j < |b| && b[j] == a[i];
        NamedFieldValue(a, f, i);
        NamedFieldValue(b, f, j);
      } else {
        forall j | 0 <= j < |b| ensures b[j].name != SpecOf(f).name {
          assert b[j] in multiset(b);
          assert b[j] in multiset(a);
        }
        NamesAreDistinct();
        NoMatchNoValue(a, f);
        NoMatchNoValue(b, f);
      }
    }
    SameFieldsSameRequest(a, b);
  }

  // ----- rule_ids -----

  /** First occurrences, in order. */
  function Dedup(ids: seq<int>): (r: seq<int>)
    ensures |r| <= |ids| && (r == [] <==> ids == [])
    ensures forall x :: x in r <==> x in ids
  {
    if ids == [] then []
    else
      var n := |ids| - 1;
      assert ids == ids[..n] + [ids[n]];
      var front := Dedup(ids[..n]);
      if ids[n] in ids[..n] then front else front + [ids[n]]
  }

  function Texts(ids: seq<int>): (r: seq<string>)
    ensures |r| == |ids| && forall i :: 0 <= i < |ids| ==> r[i] == Itoa(ids[i])
  {
    if ids == [] then [] else Texts(ids[..|ids| - 1]) + [Itoa(ids[|ids| - 1])]
  }

  function Values(texts: seq<string>): (r: seq<int>)
    ensures |r| == |texts| && forall i :: 0 <= i < |texts| ==> r[i] == Atoi(texts[i])
  {
    if texts == [] then [] else Values(texts[..|texts| - 1]) + [Atoi(texts[|texts| - 1])]
  }

  method BuildRuleIDs(rules: seq<int>) returns (out: string)
    ensures out == Join(Texts(Dedup(rules)))
  {
    hide Dedup, Texts, Itoa;
    NoTexts();
    if |rules| == 0 {
      return "";
    }
    var ids: seq<string> := [];
    var seen: set<int> := {};
    for i := 0 to |rules|
      invariant ids == Texts(Dedup(rules[..i]))
      invariant forall x :: x in seen <==> x in rules[..i]
    {
      var id := rules[i];
      assert rules[..i + 1] == rules[..i] + [id];
      DedupStep(rules[..i], id);
      if id !in seen {
        seen := seen + {id};
        ids := ids + [Itoa(id)];
      }
    }
    assert rules[..|rules|] == rules;
    out := Join(ids);
  }

  lemma NoTexts()
    ensures Texts(Dedup([])) == []
  {
  }

  lemma DedupStep(ids: seq<int>, id: int)
    ensures Texts(Dedup(ids + [id])) == if id in ids then Texts(Dedup(ids)) else Texts(Dedup(ids)) + [Itoa(id)]
  {
  }

  /** No id twice, and the order is that of first occurrences. */
  lemma {:induction false} DedupKeepsFirstOccurrences(ids: seq<int>)
    ensures forall i, j :: 0 <= i < j < |Dedup(ids)| ==> Dedup(ids)[i] != Dedup(ids)[j]
    ensures forall i, j :: 0 <= i < j < |Dedup(ids)| ==> IndexOf(ids, Dedup(ids)[i]) < IndexOf(ids, Dedup(ids)[j])
  {
    if ids != [] {
      var n := |ids| - 1;
      var front, all := Dedup(ids[..n]), Dedup(ids);
      DedupKeepsFirstOccurrences(ids[..n]);
      assert ids == ids[..n] + [ids[n]];
      forall i | 0 <= i < |front| ensures IndexOf(ids, front[i]) == IndexOf(ids[..n], front[i]) < n {
        assert front[i] in ids[..n];
        FirstInPrefix(ids, front[i], n);
      }
      if ids[n] !in ids[..n] {
        FirstIsLast(ids, n);
      }
    }
  }

  lemma FirstInPrefix(ids: seq<int>, x: int, n: nat)
    requires n <= |ids| && x in ids[..n]
    ensures IndexOf(ids, x) == IndexOf(ids[..n], x) < n
  {
  }

  lemma FirstIsLast(ids: seq<int>, n: nat)
    requires n + 1 == |ids| && ids[n] !in ids[..n]
    ensures IndexOf(ids, ids[n]) == n
  {
  }

  lemma TextsAreNumerals(ids: seq<int>)
    ensures forall i :: 0 <= i < |ids| ==>
              ',' !in Texts(ids)[i] && Texts(ids)[i] != "" && Atoi(Texts(ids)[i]) == ids[i]
  {
    hide Itoa, Atoi;
    forall i | 0 <= i < |ids|
      ensures ',' !in Texts(ids)[i] && Texts(ids)[i] != "" && Atoi(Texts(ids)[i]) == ids[i]
    {
      ItoaHasNoComma(ids[i]);
      AtoiOfItoa(ids[i]);
    }
  }

  lemma DedupIsEmptyTogether(rules: seq<int>)
    ensures Dedup(rules) == [] <==> rules == []
  {
  }

  /** Splitting the variable on commas and reading the numbers gives back the matched ids, each once, in order of first
      occurrence; the variable is empty iff nothing matched. */
  lemma RuleIdsRoundTrip(rules: seq<int>)
    ensures var out := Join(Texts(Dedup(rules)));
            && (out == "" <==> rules == [])
            && (rules != [] ==> Values(Split(out, ',')) == Dedup(rules))
  {
    hide Dedup;
    var ids := Dedup(rules);
    DedupIsEmptyTogether(rules);
    TextsAreNumerals(ids);
    hide Texts, Itoa, Atoi;
    if rules != [] {
      SplitOfJoined(Texts(ids));
      if |ids| > 1 {
        assert Join(Texts(ids)) == Texts(ids)[0] + "," + Join(Texts(ids)[1..]);
      }
    }
  }
}
