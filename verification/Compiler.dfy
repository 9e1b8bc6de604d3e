/**
 internal/compiler: sources are concatenated between banner lines, and the rule
 ids of their directive lines must not repeat.
 */
module Compiler {
  import opened Wrappers
  import opened Text

  datatype Source = Source(kind: string, name: string, body: string)

  datatype Bundle = Bundle(compiled: string, sha256: string, ruleCount: int)

  datatype ConflictError = ConflictError(ruleID: string, first: string, second: string)

  /** A directive line that carries an id, with the label of its source. */
  datatype Declaration = Declaration(id: string, tag: string)

  // ----- What a list of sources means -----

  function Label(src: Source): string { src.kind + "/" + src.name }

  function BeginBanner(tag: string): string { "# --- begin " + tag + " ---" }

  function EndBanner(tag: string): string { "# --- end " + tag + " ---" }

  /** The body as it is written out: a non-empty body always ends in a newline. */
  function Normalised(body: string): string {
    if body != "" && body[|body| - 1] != '\n' then body + "\n" else body
  }

  function Section(src: Source): string {
    BeginBanner(Label(src)) + "\n" + Normalised(src.body) + EndBanner(Label(src)) + "\n"
  }

  function CompiledText(sources: seq<Source>): string {
    if sources == [] then ""
    else CompiledText(sources[..|sources| - 1]) + Section(sources[|sources| - 1])
  }

  /** The number of directive lines. */
  function DirectiveCount(lines: seq<string>): nat {
    if lines == [] then 0
    else DirectiveCount(lines[..|lines| - 1]) + (if IsDirective(lines[|lines| - 1]) then 1 else 0)
  }

  function RuleTotal(sources: seq<Source>): nat {
    if sources == [] then 0
    else RuleTotal(sources[..|sources| - 1]) + DirectiveCount(Lines(sources[|sources| - 1].body))
  }

  function DeclarationOf(line: string, tag: string): seq<Declaration> {
    if IsDirective(line) && RuleId(line).Some? then [Declaration(RuleId(line).value, tag)] else []
  }

  function LineDeclarations(lines: seq<string>, tag: string): seq<Declaration> {
    if lines == [] then []
    else LineDeclarations(lines[..|lines| - 1], tag) + DeclarationOf(lines[|lines| - 1], tag)
  }

  /** All declarations, in source order and then in line order. */
  function Declarations(sources: seq<Source>): seq<Declaration> {
    if sources == [] then []
    else
      var last := sources[|sources| - 1];
      Declarations(sources[..|sources| - 1]) + LineDeclarations(Lines(last.body), Label(last))
  }

  ghost predicate NoRepeat(ds: seq<Declaration>) {
    forall i, j :: 0 <= i < j < |ds| ==> ds[i].id != ds[j].id
  }

  ghost function Ids(ds: seq<Declaration>): set<string> {
    set i | 0 <= i < |ds| :: ds[i].id
  }

  /** `e` names the declaration at `j`, the earliest that repeats, and the one at `i` it repeats. */
  ghost predicate ConflictBetween(ds: seq<Declaration>, i: int, j: int, e: ConflictError) {
    && 0 <= i < j < |ds|
    && NoRepeat(ds[..j])
    && ds[i].id == ds[j].id
    && e == ConflictError(ds[j].id, ds[i].tag, ds[j].tag)
  }

  ghost predicate IsFirstConflict(ds: seq<Declaration>, e: ConflictError) {
    exists i, j :: ConflictBetween(ds, i, j, e)
  }

  /** Go's int32 addition. */
  function Wrap32(n: int): (r: int)
    ensures -0x8000_0000 <= r < 0x8000_0000
  {
    (n + 0x8000_0000) % 0x1_0000_0000 - 0x8000_0000
  }

  // ----- The two loops -----

  /** What the map from rule id to first declarer holds after the declarations `ds`. */
  ghost predicate OwnersOf(owner: map<string, string>, ds: seq<Declaration>) {
    && owner.Keys == Ids(ds)
    && forall i :: 0 <= i < |ds| ==> owner[ds[i].id] == ds[i].tag
  }

  /** The directive scan of one body (the inner loop); `before` are the declarations of the sources already done. */
  method ScanBody(src: Source, ruleOwner: map<string, string>, ruleCount: int, ghost before: seq<Declaration>)
    returns (owner: map<string, string>, count: int, conflict: Option<ConflictError>)
    requires NoRepeat(before) && OwnersOf(ruleOwner, before)
    ensures conflict.None? ==>
              var ds := before + LineDeclarations(Lines(src.body), Label(src));
              NoRepeat(ds) && OwnersOf(owner, ds) && count == Wrap32(ruleCount + DirectiveCount(Lines(src.body)))
    ensures conflict.Some? ==> RepeatsAfter(before, src, conflict.value)
  {
    hide IsDirective, RuleId, Lines, IsFirstConflict, LineDeclarations, DirectiveCount, NoRepeat, OwnersOf, Wrap32;
    var tag := src.kind + "/" + src.name;
    var lines := Lines(src.body);
    owner, count := ruleOwner, Wrap32(ruleCount);
    NoLines(tag);
    assert before + [] == before && lines[..0] == [];
    for k := 0 to |lines|
      invariant count == Wrap32(ruleCount + DirectiveCount(lines[..k]))
      invariant NoRepeat(before + LineDeclarations(lines[..k], tag))
      invariant OwnersOf(owner, before + LineDeclarations(lines[..k], tag))
    {
      ghost var ds := before + LineDeclarations(lines[..k], tag);
      OneMoreLine(lines, k, tag);
      WrapOfWrapped(ruleCount + DirectiveCount(lines[..k]), 1);
      assert before + (LineDeclarations(lines[..k], tag) + DeclarationOf(lines[k], tag)) == ds + DeclarationOf(lines[k], tag);
      if IsDirective(lines[k]) {
        count := Wrap32(count + 1);
        var m := RuleId(lines[k]);
        if m.Some? {
          var id := m.value;
          if id in owner {
            OwnerDeclares(owner, ds, id);
            conflict := Some(ConflictError(id, owner[id], tag));
            RepeatFound(before, src, k, conflict.value);
            return;
          }
          OwnersExtend(owner, ds, Declaration(id, tag));
          owner := owner[id := tag];
        }
      }
    }
    assert lines[..|lines|] == lines;
    conflict := None;
  }

  lemma NoLines(tag: string)
    ensures LineDeclarations([], tag) == [] && DirectiveCount([]) == 0
  {
  }

  lemma OneMoreLine(lines: seq<string>, k: nat, tag: string)
    requires k < |lines|
    ensures LineDeclarations(lines[..k + 1], tag) == LineDeclarations(lines[..k], tag) + DeclarationOf(lines[k], tag)
    ensures DirectiveCount(lines[..k + 1]) == DirectiveCount(lines[..k]) + (if IsDirective(lines[k]) then 1 else 0)
    ensures forall ds: seq<Declaration> :: ds + [] == ds
  {
    hide IsDirective, RuleId;
    assert lines[..k + 1][..k] == lines[..k];
  }

  lemma OwnerDeclares(owner: map<string, string>, ds: seq<Declaration>, id: string)
    requires OwnersOf(owner, ds) && id in owner
    ensures Declaration(id, owner[id]) in ds
  {
  }

  method Compile(sources: seq<Source>, sha: string -> string) returns (r: Result<Bundle, ConflictError>)
    ensures r.Ok? <==> NoRepeat(Declarations(sources))
    ensures r.Ok? ==>
              var text := CompiledText(sources);
              r.value == Bundle(text, sha(text), Wrap32(RuleTotal(sources)))
    ensures r.Err? ==> IsFirstConflict(Declarations(sources), r.error)
  {
    hide Section, IsFirstConflict, OwnersOf, NoRepeat, LineDeclarations, DirectiveCount, Lines, Label, Wrap32;
    NothingDeclared();
    WrapOfSmall(0);
    if |sources| == 0 {
      return Ok(Bundle("", sha(""), 0));
    }
    var sb := "";
    var ruleOwner: map<string, string> := map[];
    var ruleCount := 0;
    for i := 0 to |sources|
      invariant sb == CompiledText(sources[..i])
      invariant ruleCount == Wrap32(RuleTotal(sources[..i]))
      invariant NoRepeat(Declarations(sources[..i]))
      invariant OwnersOf(ruleOwner, Declarations(sources[..i]))
    {
      var src := sources[i];
      ghost var done := Declarations(sources[..i]);
      assert sources[..i + 1][..i] == sources[..i];
      sb := AppendSection(sb, src);
      WrapOfWrapped(RuleTotal(sources[..i]), DirectiveCount(Lines(src.body)));
      var conflict;
      ruleOwner, ruleCount, conflict := ScanBody(src, ruleOwner, ruleCount, done);
      if conflict.Some? {
        ConflictInPrefix(sources, i, conflict.value);
        return Err(conflict.value);
      }
    }
    assert sources[..|sources|] == sources;
    return Ok(Bundle(sb, sha(sb), ruleCount));
  }

  method AppendSection(text: string, src: Source) returns (sb: string)
    ensures sb == text + Section(src)
  {
    var tag := src.kind + "/" + src.name;
    sb := "# --- begin " + tag + " ---" + "\n";
    sb := sb + src.body;
    if |src.body| > 0 && src.body[|src.body| - 1] != '\n' {
      sb := sb + "\n";
    }
    assert sb == BeginBanner(tag) + "\n" + Normalised(src.body);
    sb := sb + ("# --- end " + tag + " ---" + "\n");
    sb := text + sb;
  }

  method CountRules(seclang: string) returns (n: int)
    ensures n == DirectiveCount(Lines(seclang))
  {
    n := 0;
    var lines := Lines(seclang);
    for k := 0 to |lines|
      invariant n == DirectiveCount(lines[..k])
    {
      assert lines[..k + 1][..k] == lines[..k];
      if IsDirective(lines[k]) {
        n := n + 1;
      }
    }
    assert lines[..|lines|] == lines;
  }

  lemma NothingDeclared()
    ensures NoRepeat([]) && OwnersOf(map[], [])
  {
  }

  lemma OwnersExtend(owner: map<string, string>, ds: seq<Declaration>, d: Declaration)
    requires NoRepeat(ds) && OwnersOf(owner, ds) && d.id !in owner
    ensures NoRepeat(ds + [d]) && OwnersOf(owner[d.id := d.tag], ds + [d])
  {
    var more := ds + [d];
    assert forall i :: 0 <= i < |ds| ==> ds[i].id in Ids(ds);
    assert more[|ds|].id in Ids(more);
    forall id ensures id in Ids(more) <==> id in Ids(ds) + {d.id} {
      if id in Ids(ds) {
        var i :| 0 <= i < |ds| && ds[i].id == id;
        assert more[i].id == id;
      }
    }
  }

  /** `e` is the first conflict of the declarations of `before` followed by those of the body of `src`. */
  ghost predicate RepeatsAfter(before: seq<Declaration>, src: Source, e: ConflictError) {
    IsFirstConflict(before + LineDeclarations(Lines(src.body), Label(src)), e)
  }

  /** The declaration of line `k` follows those of the lines before it. */
  lemma DeclarationsUpTo(lines: seq<string>, k: nat, d: Declaration)
    requires k < |lines| && IsDirective(lines[k]) && RuleId(lines[k]) == Some(d.id)
    ensures exists rest :: LineDeclarations(lines, d.tag) == LineDeclarations(lines[..k], d.tag) + [d] + rest
  {
    hide IsDirective, RuleId, LineDeclarations;
    var upTo, after := lines[..k + 1], lines[k + 1..];
    assert lines == upTo + after && upTo[..k] == lines[..k];
    LineDeclarationsConcat(upTo, after, d.tag);
    DeclaredLast(upTo, d);
  }

  lemma DeclaredLast(lines: seq<string>, d: Declaration)
    requires lines != [] && IsDirective(lines[|lines| - 1]) && RuleId(lines[|lines| - 1]) == Some(d.id)
    ensures LineDeclarations(lines, d.tag) == LineDeclarations(lines[..|lines| - 1], d.tag) + [d]
  {
    hide IsDirective, RuleId;
  }

  lemma RepeatAfterPrefix(ds: seq<Declaration>, d: Declaration, rest: seq<Declaration>, first: string)
    requires NoRepeat(ds) && Declaration(d.id, first) in ds
    ensures IsFirstConflict(ds + [d] + rest, ConflictError(d.id, first, d.tag))
  {
    var all := ds + [d] + rest;
    var i :| 0 <= i < |ds| && ds[i] == Declaration(d.id, first);
    assert all[..|ds|] == ds && all[|ds|] == d && all[i] == ds[i];
    assert ConflictBetween(all, i, |ds|, ConflictError(d.id, first, d.tag));
  }

  lemma RepeatFound(before: seq<Declaration>, src: Source, k: nat, e: ConflictError)
    requires k < |Lines(src.body)|
    requires IsDirective(Lines(src.body)[k]) && RuleId(Lines(src.body)[k]) == Some(e.ruleID) && e.second == Label(src)
    requires var ds := before + LineDeclarations(Lines(src.body)[..k], Label(src));
             NoRepeat(ds) && Declaration(e.ruleID, e.first) in ds
    ensures RepeatsAfter(before, src, e)
  {
    hide IsDirective, RuleId, Lines, LineDeclarations, Label, NoRepeat, IsFirstConflict;
    var lines, tag := Lines(src.body), Label(src);
    var pre := LineDeclarations(lines[..k], tag);
    var d := Declaration(e.ruleID, tag);
    DeclarationsUpTo(lines, k, d);
    var rest :| LineDeclarations(lines, tag) == pre + [d] + rest;
    RepeatAfterPrefix(before + pre, d, rest, e.first);
    assert before + (pre + [d] + rest) == (before + pre) + [d] + rest;
  }

  lemma ConflictOfPrefix(ds: seq<Declaration>, all: seq<Declaration>, e: ConflictError)
    requires ds <= all && IsFirstConflict(ds, e)
    ensures IsFirstConflict(all, e) && !NoRepeat(all)
  {
    var i, j :| ConflictBetween(ds, i, j, e);
    assert all[..j] == ds[..j];
    assert ConflictBetween(all, i, j, e);
  }

  lemma ConflictInPrefix(sources: seq<Source>, i: nat, e: ConflictError)
    requires i < |sources| && RepeatsAfter(Declarations(sources[..i]), sources[i], e)
    ensures IsFirstConflict(Declarations(sources), e) && !NoRepeat(Declarations(sources))
  {
    hide IsFirstConflict, LineDeclarations, NoRepeat, Lines, Label;
    var upTo, after := sources[..i + 1], sources[i + 1..];
    assert sources == upTo + after && upTo[..i] == sources[..i];
    DeclarationsConcat(upTo, after);
    ConflictOfPrefix(Declarations(upTo), Declarations(upTo) + Declarations(after), e);
  }

  // ----- Concatenation laws -----

  lemma {:induction false} LineDeclarationsConcat(a: seq<string>, b: seq<string>, tag: string)
    ensures LineDeclarations(a + b, tag) == LineDeclarations(a, tag) + LineDeclarations(b, tag)
  {
    if b == [] {
      assert a + b == a;
    } else {
      var front := b[..|b| - 1];
      assert (a + b)[..|a + b| - 1] == a + front;
      LineDeclarationsConcat(a, front, tag);
    }
  }

  lemma {:induction false} DirectiveCountConcat(a: seq<string>, b: seq<string>)
    ensures DirectiveCount(a + b) == DirectiveCount(a) + DirectiveCount(b)
  {
    if b == [] {
      assert a + b == a;
    } else {
      var front := b[..|b| - 1];
      assert (a + b)[..|a + b| - 1] == a + front;
      DirectiveCountConcat(a, front);
    }
  }

  lemma {:induction false} TextConcat(a: seq<Source>, b: seq<Source>)
    ensures CompiledText(a + b) == CompiledText(a) + CompiledText(b)
  {
    hide Section;
    if b == [] {
      assert a + b == a;
    } else {
      assert (a + b)[..|a + b| - 1] == a + b[..|b| - 1];
      TextConcat(a, b[..|b| - 1]);
    }
  }

  lemma {:induction false} TotalConcat(a: seq<Source>, b: seq<Source>)
    ensures RuleTotal(a + b) == RuleTotal(a) + RuleTotal(b)
  {
    if b == [] {
      assert a + b == a;
    } else {
      assert (a + b)[..|a + b| - 1] == a + b[..|b| - 1];
      TotalConcat(a, b[..|b| - 1]);
    }
  }

  lemma {:induction false} DeclarationsConcat(a: seq<Source>, b: seq<Source>)
    ensures Declarations(a + b) == Declarations(a) + Declarations(b)
  {
    hide Lines, Label, LineDeclarations;
    if b == [] {
      assert a + b == a;
    } else {
      assert (a + b)[..|a + b| - 1] == a + b[..|b| - 1];
      DeclarationsConcat(a, b[..|b| - 1]);
    }
  }

  // ----- Exact conflicts -----

  lemma {:induction false} RepeatHasConflict(ds: seq<Declaration>) returns (e: ConflictError)
    requires !NoRepeat(ds)
    ensures IsFirstConflict(ds, e)
  {
    var n := |ds| - 1;
    if NoRepeat(ds[..n]) {
      var i :| 0 <= i < n && ds[i].id == ds[n].id;
      e := ConflictError(ds[n].id, ds[i].tag, ds[n].tag);
      assert ConflictBetween(ds, i, n, e);
    } else {
      e := RepeatHasConflict(ds[..n]);
      var i, j :| ConflictBetween(ds[..n], i, j, e);
      assert ds[..n][..j] == ds[..j];
      assert ConflictBetween(ds, i, j, e);
    }
  }

  /** The error is determined: one earliest repeating line, one first declarer. */
  lemma ConflictIsUnique(ds: seq<Declaration>, e: ConflictError, e': ConflictError)
    requires IsFirstConflict(ds, e) && IsFirstConflict(ds, e')
    ensures e == e' && !NoRepeat(ds)
  {
  }

  /** The outcome of `Compile` as a function of its arguments. */
  ghost function Outcome(sources: seq<Source>, sha: string -> string): (r: Result<Bundle, ConflictError>) {
    var ds := Declarations(sources);
    if NoRepeat(ds) then
      Ok(Bundle(CompiledText(sources), sha(CompiledText(sources)), Wrap32(RuleTotal(sources))))
    else
      assert exists e :: IsFirstConflict(ds, e) by { var e := RepeatHasConflict(ds); }
      var e :| IsFirstConflict(ds, e);
      Err(e)
  }

  /** The contract of `Compile` leaves one result. */
  lemma OutcomeIsDetermined(sources: seq<Source>, sha: string -> string, r: Result<Bundle, ConflictError>)
    requires r.Ok? <==> NoRepeat(Declarations(sources))
    requires r.Ok? ==> r.value == Bundle(CompiledText(sources), sha(CompiledText(sources)), Wrap32(RuleTotal(sources)))
    requires r.Err? ==> IsFirstConflict(Declarations(sources), r.error)
    ensures r == Outcome(sources, sha)
  {
    hide CompiledText, RuleTotal, Declarations, NoRepeat, IsFirstConflict, Wrap32;
    if r.Err? {
      ConflictIsUnique(Declarations(sources), r.error, Outcome(sources, sha).error);
    }
  }

  lemma NoRepeatConcat(x: seq<Declaration>, y: seq<Declaration>)
    ensures NoRepeat(x + y) <==> NoRepeat(x) && NoRepeat(y) && Ids(x) !! Ids(y)
  {
    var z := x + y;
    if NoRepeat(z) {
      assert forall i :: 0 <= i < |x| ==> z[i] == x[i];
      assert forall i :: 0 <= i < |y| ==> z[|x| + i] == y[i];
      forall id | id in Ids(x) ensures id !in Ids(y) {
        var i :| 0 <= i < |x| && x[i].id == id;
        assert z[i].id == id;
      }
    } else if NoRepeat(x) && NoRepeat(y) {
      var i, j :| 0 <= i < j < |z| && z[i].id == z[j].id;
      assert x[i].id in Ids(x) && y[j - |x|].id in Ids(y);
    }
  }

  /** `Compile(A ++ B)` succeeds iff both halves do and share no id; then texts concatenate and counts add. */
  lemma CompileIsCompositional(a: seq<Source>, b: seq<Source>, sha: string -> string)
    ensures Outcome(a + b, sha).Ok? <==>
              && Outcome(a, sha).Ok?
              && Outcome(b, sha).Ok?
              && Ids(Declarations(a)) !! Ids(Declarations(b))
    ensures Outcome(a + b, sha).Ok? ==>
              && Outcome(a + b, sha).value.compiled == Outcome(a, sha).value.compiled + Outcome(b, sha).value.compiled
              && Outcome(a + b, sha).value.ruleCount
                 == Wrap32(Outcome(a, sha).value.ruleCount + Outcome(b, sha).value.ruleCount)
  {
    hide CompiledText, RuleTotal, Declarations, Ids, NoRepeat, Wrap32;
    DeclarationsConcat(a, b);
    NoRepeatConcat(Declarations(a), Declarations(b));
    TextConcat(a, b);
    TotalConcat(a, b);
    WrapOfSum(RuleTotal(a), RuleTotal(b));
  }

  lemma WrapOfSmall(n: int)
    requires -0x8000_0000 <= n < 0x8000_0000
    ensures Wrap32(n) == n
  {
  }

  lemma WrapOfWrapped(m: int, n: int)
    ensures Wrap32(Wrap32(m) + n) == Wrap32(m + n)
  {
  }

  lemma WrapOfSum(m: int, n: int)
    ensures Wrap32(Wrap32(m) + Wrap32(n)) == Wrap32(m + n)
  {
  }

  /** A failing half keeps its error when more sources follow it. */
  lemma ConflictIsStable(a: seq<Source>, b: seq<Source>, sha: string -> string)
    requires Outcome(a, sha).Err?
    ensures Outcome(a + b, sha) == Outcome(a, sha)
  {
    DeclarationsConcat(a, b);
    var e := Outcome(a, sha).error;
    ConflictOfPrefix(Declarations(a), Declarations(a + b), e);
    ConflictIsUnique(Declarations(a + b), e, Outcome(a + b, sha).error);
  }

  // ----- The operator's and the engine's counts -----

  ghost predicate LabelsAreOneLine(sources: seq<Source>) {
    forall i :: 0 <= i < |sources| ==> '\n' !in Label(sources[i])
  }

  /** The directive lines that banner lines would contribute, which only a label with a newline can. */
  function BannerCount(sources: seq<Source>): nat {
    if sources == [] then 0
    else
      var tag := Label(sources[|sources| - 1]);
      BannerCount(sources[..|sources| - 1])
      + DirectiveCount(Lines(BeginBanner(tag))) + DirectiveCount(Lines(EndBanner(tag)))
  }

  /** One line of text, whatever it holds, adds its own directives to what follows it. */
  lemma DirectivesOfJoin(a: string, b: string)
    ensures DirectiveCount(Lines(a + "\n" + b)) == DirectiveCount(Lines(a)) + DirectiveCount(Lines(b))
  {
    LinesOfJoin(a, b);
    DirectiveCountConcat(Lines(a), Lines(b));
  }

  lemma DirectivesOfNormalised(body: string, rest: string)
    ensures DirectiveCount(Lines(Normalised(body) + rest)) == DirectiveCount(Lines(body)) + DirectiveCount(Lines(rest))
  {
    assert DirectiveCount([""]) == 0 by { assert [""][..0] == []; }
    if body == "" {
      assert Normalised(body) + rest == rest;
    } else if body[|body| - 1] != '\n' {
      DirectivesOfJoin(body, rest);
    } else {
      var cut := body[..|body| - 1];
      assert body == cut + "\n" + "" && body + rest == cut + "\n" + rest;
      DirectivesOfJoin(cut, "");
      DirectivesOfJoin(cut, rest);
    }
  }

  lemma DirectivesOfSection(src: Source)
    ensures DirectiveCount(Lines(Section(src))) ==
            DirectiveCount(Lines(src.body))
            + DirectiveCount(Lines(BeginBanner(Label(src)))) + DirectiveCount(Lines(EndBanner(Label(src))))
    ensures Section(src) != "" && Section(src)[|Section(src)| - 1] == '\n'
  {
    var tag := Label(src);
    var tail := EndBanner(tag) + "\n" + "";
    assert Section(src) == BeginBanner(tag) + "\n" + (Normalised(src.body) + tail);
    DirectivesOfJoin(BeginBanner(tag), Normalised(src.body) + tail);
    DirectivesOfNormalised(src.body, tail);
    DirectivesOfJoin(EndBanner(tag), "");
    assert DirectiveCount([""]) == 0 by { assert [""][..0] == []; }
  }

  lemma DirectivesAfterNewline(a: string, b: string)
    requires a != "" ==> a[|a| - 1] == '\n'
    ensures DirectiveCount(Lines(a + b)) == DirectiveCount(Lines(a)) + DirectiveCount(Lines(b))
  {
    DirectivesOfNormalised(a, b);
  }

  lemma DirectivesOfNothing()
    ensures DirectiveCount(Lines("")) == 0
  {
    assert [""][..0] == [];
  }

  /** The engine counts the directives of the compiled text: those of the bodies plus those of the banners. */
  lemma {:induction false} CountOfCompiledText(sources: seq<Source>)
    ensures DirectiveCount(Lines(CompiledText(sources))) == RuleTotal(sources) + BannerCount(sources)
    ensures CompiledText(sources) != "" ==> CompiledText(sources)[|CompiledText(sources)| - 1] == '\n'
  {
    hide Lines, Section, DirectiveCount, Label, BeginBanner, EndBanner;
    if sources == [] {
      DirectivesOfNothing();
    } else {
      var before, src := sources[..|sources| - 1], sources[|sources| - 1];
      CountOfCompiledText(before);
      DirectivesOfSection(src);
      DirectivesAfterNewline(CompiledText(before), Section(src));
    }
  }

  lemma {:induction false} OneLineBannersCountNothing(sources: seq<Source>)
    requires LabelsAreOneLine(sources)
    ensures BannerCount(sources) == 0
  {
    if sources != [] {
      var tag := Label(sources[|sources| - 1]);
      assert '\n' !in tag;
      OneLineBannersCountNothing(sources[..|sources| - 1]);
      LinesOfOneLine(BeginBanner(tag));
      LinesOfOneLine(EndBanner(tag));
      HashIsNoDirective(BeginBanner(tag));
      HashIsNoDirective(EndBanner(tag));
    }
  }

  lemma HashIsNoDirective(line: string)
    requires line != "" && line[0] == '#'
    ensures !IsDirective(line) && DirectiveCount([line]) == 0
  {
  }

  /** The length of all lines, each with its newline. */
  function Weight(lines: seq<string>): nat {
    if lines == [] then 0 else Weight(lines[..|lines| - 1]) + |lines[|lines| - 1]| + 1
  }

  function BodyWeight(sources: seq<Source>): nat {
    if sources == [] then 0 else BodyWeight(sources[..|sources| - 1]) + |sources[|sources| - 1].body| + 1
  }

  lemma {:induction false} WeightConcat(a: seq<string>, b: seq<string>)
    ensures Weight(a + b) == Weight(a) + Weight(b)
  {
    if b == [] {
      assert a + b == a;
    } else {
      assert (a + b)[..|a + b| - 1] == a + b[..|b| - 1];
      WeightConcat(a, b[..|b| - 1]);
    }
  }

  lemma {:induction false} WeightOfLines(s: string)
    ensures Weight(Lines(s)) == |s| + 1
  {
    if s != "" {
      var rest := Lines(s[1..]);
      WeightOfLines(s[1..]);
      if s[0] == '\n' {
        WeightConcat([""], rest);
      } else {
        assert rest == [rest[0]] + rest[1..];
        WeightConcat([rest[0]], rest[1..]);
        WeightConcat([[s[0]] + rest[0]], rest[1..]);
      }
    }
  }

  lemma {:induction false} DirectivesAreHeavy(lines: seq<string>)
    ensures 8 * DirectiveCount(lines) <= Weight(lines)
  {
    if lines != [] {
      var last := lines[|lines| - 1];
      DirectivesAreHeavy(lines[..|lines| - 1]);
      if IsDirective(last) {
        DirectiveIsLong(last);
      }
    }
  }

  lemma {:induction false} RulesAreHeavy(sources: seq<Source>)
    ensures 8 * RuleTotal(sources) <= BodyWeight(sources)
  {
    if sources != [] {
      var last := sources[|sources| - 1];
      RulesAreHeavy(sources[..|sources| - 1]);
      WeightOfLines(last.body);
      DirectivesAreHeavy(Lines(last.body));
    }
  }

  /** The engine's count of the compiled text is the operator's int32 count, exactly when no banner line reads as a
      directive and the total fits an int32. */
  lemma CountsAgree(sources: seq<Source>, sha: string -> string)
    requires Outcome(sources, sha).Ok?
    ensures var b := Outcome(sources, sha).value;
            DirectiveCount(Lines(b.compiled)) == b.ruleCount <==>
            BannerCount(sources) == 0 && RuleTotal(sources) < 0x8000_0000
    ensures LabelsAreOneLine(sources) ==> BannerCount(sources) == 0
    ensures BodyWeight(sources) < 0x4_0000_0000 ==> RuleTotal(sources) < 0x8000_0000
  {
    hide CompiledText, RuleTotal, Declarations, NoRepeat, DirectiveCount, Lines, LabelsAreOneLine, BannerCount, BodyWeight;
    CountOfCompiledText(sources);
    RulesAreHeavy(sources);
    if LabelsAreOneLine(sources) {
      OneLineBannersCountNothing(sources);
    }
  }

  // ----- Declarations, line by line -----

  /** A line of a source, by position. */
  datatype Place = Place(source: nat, line: nat)

  predicate Before(p: Place, q: Place) { p.source < q.source || (p.source == q.source && p.line < q.line) }

  predicate LineDeclares(line: string, id: string) { IsDirective(line) && RuleId(line) == Some(id) }

  /** The line there is a directive with that id. */
  ghost predicate DeclaresAt(sources: seq<Source>, p: Place, id: string) {
    && p.source < |sources|
    && p.line < |Lines(sources[p.source].body)|
    && LineDeclares(Lines(sources[p.source].body)[p.line], id)
  }

  ghost function LinePlaces(lines: seq<string>, i: nat): seq<Place> {
    if lines == [] then []
    else
      var n := |lines| - 1;
      LinePlaces(lines[..n], i) + (if IsDirective(lines[n]) && RuleId(lines[n]).Some? then [Place(i, n)] else [])
  }

  ghost function Places(sources: seq<Source>): seq<Place> {
    if sources == [] then []
    else
      var n := |sources| - 1;
      Places(sources[..n]) + LinePlaces(Lines(sources[n].body), n)
  }

  ghost predicate InOrder(ps: seq<Place>) { forall a, b :: 0 <= a < b < |ps| ==> Before(ps[a], ps[b]) }

  /** One place per declaration of the lines, increasing, and none left out. */
  ghost predicate LinesFit(lines: seq<string>, i: nat, tag: string, ps: seq<Place>, ds: seq<Declaration>) {
    && |ps| == |ds| && InOrder(ps)
    && (forall m :: 0 <= m < |ps| ==>
          ps[m].source == i && ps[m].line < |lines| && ds[m].tag == tag && LineDeclares(lines[ps[m].line], ds[m].id))
    && (forall j, id :: 0 <= j < |lines| && LineDeclares(lines[j], id) ==> Place(i, j) in ps)
  }

  lemma PlacesGrow(ps: seq<Place>, p: Place)
    requires InOrder(ps) && forall m :: 0 <= m < |ps| ==> Before(ps[m], p)
    ensures InOrder(ps + [p])
  {
    hide Before;
  }

  lemma OneMoreDeclares(lines: seq<string>, i: nat, tag: string, ps: seq<Place>, ds: seq<Declaration>, id: string)
    requires lines != [] && LinesFit(lines[..|lines| - 1], i, tag, ps, ds) && LineDeclares(lines[|lines| - 1], id)
    ensures LinesFit(lines, i, tag, ps + [Place(i, |lines| - 1)], ds + [Declaration(id, tag)])
  {
    hide LineDeclares;
    var front := lines[..|lines| - 1];
    assert forall j :: 0 <= j < |front| ==> front[j] == lines[j];
    PlacesGrow(ps, Place(i, |lines| - 1));
    hide InOrder;
  }

  lemma OneMoreSilent(lines: seq<string>, i: nat, tag: string, ps: seq<Place>, ds: seq<Declaration>)
    requires lines != [] && LinesFit(lines[..|lines| - 1], i, tag, ps, ds)
    requires !IsDirective(lines[|lines| - 1]) || RuleId(lines[|lines| - 1]).None?
    ensures LinesFit(lines, i, tag, ps, ds)
  {
    hide IsDirective, RuleId, InOrder;
    var front := lines[..|lines| - 1];
    assert forall j :: 0 <= j < |front| ==> front[j] == lines[j];
  }

  lemma {:induction false} LinePlacesFit(lines: seq<string>, i: nat, tag: string)
    ensures LinesFit(lines, i, tag, LinePlaces(lines, i), LineDeclarations(lines, tag))
  {
    if lines != [] {
      hide IsDirective, RuleId, LinesFit;
      var n := |lines| - 1;
      LinePlacesFit(lines[..n], i, tag);
      var ps, ds := LinePlaces(lines[..n], i), LineDeclarations(lines[..n], tag);
      if IsDirective(lines[n]) && RuleId(lines[n]).Some? {
        OneMoreDeclares(lines, i, tag, ps, ds, RuleId(lines[n]).value);
      } else {
        OneMoreSilent(lines, i, tag, ps, ds);
        assert ps + [] == ps && ds + [] == ds;
      }
    }
  }

  /** One place per declaration of the sources, in reading order, with the label of its source, and none left out. */
  ghost predicate SourcesFit(sources: seq<Source>, ps: seq<Place>, ds: seq<Declaration>) {
    && |ps| == |ds| && InOrder(ps)
    && (forall m :: 0 <= m < |ps| ==>
          DeclaresAt(sources, ps[m], ds[m].id)
          && ds[m].tag == sources[ps[m].source].kind + "/" + sources[ps[m].source].name)
    && (forall p, id :: DeclaresAt(sources, p, id) ==> p in ps)
  }

  /** The declarations of a list of sources are exactly its directive lines with an id, in reading order. */
  lemma {:induction false} DeclarationsAreLines(sources: seq<Source>)
    ensures SourcesFit(sources, Places(sources), Declarations(sources))
  {
    hide Lines, LineDeclares, LinePlaces, LineDeclarations;
    if sources != [] {
      var n := |sources| - 1;
      var front := sources[..n];
      DeclarationsAreLines(front);
      LinePlacesFit(Lines(sources[n].body), n, Label(sources[n]));
      OneMoreSource(sources, Places(front), Declarations(front),
                    LinePlaces(Lines(sources[n].body), n), LineDeclarations(Lines(sources[n].body), Label(sources[n])));
    }
  }

  lemma PlacesJoin(ps: seq<Place>, qs: seq<Place>, n: nat)
    requires InOrder(ps) && InOrder(qs)
    requires (forall m :: 0 <= m < |ps| ==> ps[m].source < n) && forall m :: 0 <= m < |qs| ==> qs[m].source == n
    ensures InOrder(ps + qs)
  {
  }

  lemma OneMoreSource(
    sources: seq<Source>, ps: seq<Place>, ds: seq<Declaration>, qs: seq<Place>, es: seq<Declaration>)
    requires sources != [] && SourcesFit(sources[..|sources| - 1], ps, ds)
    requires var last := sources[|sources| - 1];
             LinesFit(Lines(last.body), |sources| - 1, last.kind + "/" + last.name, qs, es)
    ensures SourcesFit(sources, ps + qs, ds + es)
  {
    hide Lines, LineDeclares, InOrder;
    assert InOrder(ps + qs) by { PlacesJoin(ps, qs, |sources| - 1); }
    var n := |sources| - 1;
    var front := sources[..n];
    forall m | 0 <= m < |ps| ensures DeclaresAt(sources, ps[m], ds[m].id) && ps[m].source < n {
      assert DeclaresAt(front, ps[m], ds[m].id);
    }
    forall p, id | DeclaresAt(sources, p, id) ensures p in ps + qs {
      if p.source < n {
        assert DeclaresAt(front, p, id);
      } else {
        assert Place(n, p.line) == p;
      }
    }
  }

  /** No two different lines of the sources are directives with one id. */
  ghost predicate NoTwoLines(sources: seq<Source>) {
    forall p, q, id :: DeclaresAt(sources, p, id) && DeclaresAt(sources, q, id) ==> p == q
  }

  lemma DistinctIffNoTwoLines(sources: seq<Source>, ps: seq<Place>, ds: seq<Declaration>)
    requires SourcesFit(sources, ps, ds)
    ensures NoRepeat(ds) <==> NoTwoLines(sources)
  {
    hide Lines, LineDeclares;
    if NoRepeat(ds) {
      forall p, q, id | DeclaresAt(sources, p, id) && DeclaresAt(sources, q, id) ensures p == q {
        var a :| 0 <= a < |ps| && ps[a] == p;
        var b :| 0 <= b < |ps| && ps[b] == q;
        OneIdPerLine(sources, p, id, ds[a].id);
        OneIdPerLine(sources, q, id, ds[b].id);
      }
    } else {
      var a, b :| 0 <= a < b < |ds| && ds[a].id == ds[b].id;
      assert DeclaresAt(sources, ps[a], ds[a].id) && DeclaresAt(sources, ps[b], ds[a].id) && Before(ps[a], ps[b]);
    }
  }

  lemma OneIdPerLine(sources: seq<Source>, p: Place, id: string, id': string)
    requires DeclaresAt(sources, p, id) && DeclaresAt(sources, p, id')
    ensures id == id'
  {
  }

  /** `Compile` succeeds iff no two lines are directives with one id; otherwise it names two such lines, the first of
      them before the second, by their sources. */
  lemma ConflictIsTwoLines(sources: seq<Source>, sha: string -> string)
    ensures Outcome(sources, sha).Ok? <==> NoTwoLines(sources)
    ensures Outcome(sources, sha).Err? ==>
              var e := Outcome(sources, sha).error;
              exists p, q ::
                && DeclaresAt(sources, p, e.ruleID) && DeclaresAt(sources, q, e.ruleID) && Before(p, q)
                && e.first == sources[p.source].kind + "/" + sources[p.source].name
                && e.second == sources[q.source].kind + "/" + sources[q.source].name
  {
    hide Declarations, Places, DeclaresAt, CompiledText, RuleTotal, NoTwoLines;
    var ps, ds := Places(sources), Declarations(sources);
    DeclarationsAreLines(sources);
    DistinctIffNoTwoLines(sources, ps, ds);
    if Outcome(sources, sha).Err? {
      var e := Outcome(sources, sha).error;
      assert IsFirstConflict(ds, e);
      var i, j :| ConflictBetween(ds, i, j, e);
      assert DeclaresAt(sources, ps[i], e.ruleID) && DeclaresAt(sources, ps[j], e.ruleID) && Before(ps[i], ps[j]);
    }
  }

  // ----- The text and the count, spelt out -----

  /** The text of one source; `TextConcat` gives that of more. */
  lemma TextOfOneSource(kind: string, name: string, body: string)
    ensures CompiledText([]) == ""
    ensures var written := if body != "" && body[|body| - 1] != '\n' then body + "\n" else body;
            CompiledText([Source(kind, name, body)]) ==
            ("# --- begin " + (kind + "/" + name) + " ---") + "\n" + written
            + ("# --- end " + (kind + "/" + name) + " ---") + "\n"
  {
    hide Section;
    var src := Source(kind, name, body);
    assert [src][..0] == [];
    assert CompiledText([src]) == Section(src);
    SectionOf(src);
  }

  lemma SectionOf(src: Source)
    ensures var written := if src.body != "" && src.body[|src.body| - 1] != '\n' then src.body + "\n" else src.body;
            Section(src) == ("# --- begin " + (src.kind + "/" + src.name) + " ---") + "\n" + written
                            + ("# --- end " + (src.kind + "/" + src.name) + " ---") + "\n"
  {
  }

  /** The rule count is the number of directive lines, in two's complement of 32 bits. */
  lemma {:induction false} CountIsCardinality(lines: seq<string>)
    ensures DirectiveCount(lines) == |set j | 0 <= j < |lines| && IsDirective(lines[j])|
  {
    hide IsDirective;
    if lines != [] {
      CountIsCardinality(lines[..|lines| - 1]);
      OneMorePosition(lines);
    }
  }

  lemma OneMorePosition(lines: seq<string>)
    requires lines != []
    ensures var n := |lines| - 1;
            |set j | 0 <= j < |lines| && IsDirective(lines[j])| ==
            |set j | 0 <= j < n && IsDirective(lines[..n][j])| + (if IsDirective(lines[n]) then 1 else 0)
  {
    hide IsDirective;
    var n := |lines| - 1;
    var before := set j | 0 <= j < n && IsDirective(lines[..n][j]);
    var all := set j | 0 <= j < |lines| && IsDirective(lines[j]);
    assert all == before + (if IsDirective(lines[n]) then {n} else {});
  }

  lemma WrapIsCongruent(n: int)
    ensures (Wrap32(n) - n) % 0x1_0000_0000 == 0
  {
  }

  /** Two one-line bodies that differ in their id alone compile together iff the ids differ, as whole numbers do. */
  lemma WholeNumbersConflict(a: Source, b: Source, d: string, e: string, sha: string -> string)
    requires d != "" && e != "" && (forall i :: 0 <= i < |d| ==> '0' <= d[i] <= '9')
    requires forall i :: 0 <= i < |e| ==> '0' <= e[i] <= '9'
    requires a.body == "SecAction id:" + d && b.body == "SecAction id:" + e
    ensures Outcome([a, b], sha).Err? <==> d == e
  {
    hide Outcome, IsDirective, RuleId, Lines;
    OneActionLine(a.body, d);
    OneActionLine(b.body, e);
    ConflictIsTwoLines([a, b], sha);
    assert DeclaresAt([a, b], Place(0, 0), d) && DeclaresAt([a, b], Place(1, 0), e);
    if d != e {
      assert forall p, id :: DeclaresAt([a, b], p, id) ==> p.line == 0 && (p.source == 0 || p.source == 1);
      forall p, q, id | DeclaresAt([a, b], p, id) && DeclaresAt([a, b], q, id) ensures p == q {
        assert p.source == 0 ==> id == d;
        assert p.source == 1 ==> id == e;
      }
    }
  }

  lemma OneActionLine(body: string, d: string)
    requires d != "" && (forall i :: 0 <= i < |d| ==> '0' <= d[i] <= '9') && body == "SecAction id:" + d
    ensures Lines(body) == [body] && LineDeclares(body, d)
  {
    hide IsDirective, RuleId, Lines, KeywordIn, IdMatch;
    assert '\n' !in "SecAction id:" && '\n' !in d;
    LinesOfOneLine(body);
    ActionIsDirective(body, d);
    ActionHasId(body, d);
  }

  lemma ActionIsDirective(body: string, d: string)
    requires body == "SecAction id:" + d
    ensures IsDirective(body)
  {
    hide IsDirective;
    assert body[0..] == body && |"secaction"| == 9 && body[9] == ' ';
    assert KeywordIn(body[0..], "secaction", "SECACTION");
    assert DirectiveFrom(body, 0);
    DirectiveIsMatch(body);
  }

  lemma ActionHasId(body: string, d: string)
    requires d != "" && (forall i :: 0 <= i < |d| ==> '0' <= d[i] <= '9') && body == "SecAction id:" + d
    ensures RuleId(body) == Some(d)
  {
    hide RuleId;
    assert body[10..13] == "id:" && body[13..13 + |d|] == d && body[9] == ' ';
    assert IdMatch(body, 10, d);
    assert forall q :: 0 < q <= 10 ==> body[q] != 'd';
    hide IdMatch;
    forall q, x | 0 <= q < 10 ensures !IdMatch(body, q, x) {
      if IdMatch(body, q, x) {
        SecondIsD(body, q, x);
      }
    }
    assert FirstIdMatch(body, 10, d);
    RuleIdIsMatch(body, d);
  }

  lemma SecondIsD(line: string, p: int, d: string)
    requires IdMatch(line, p, d)
    ensures 0 <= p && p + 1 < |line| && line[p + 1] == 'd'
  {
    assert line[p..p + 3][1] == 'd';
  }
}
