/**
 The compiled text read back: from the text alone the sources can be recovered, so the digest that gates
 publication sees every edit. The store compares digests only (internal/rulestore/store.go:97).
 */
module BundleText {
  import opened Sequences
  import opened Text
  import opened Compiler

  /** A section as its label and the lines between its banners. */
  datatype Block = Block(tag: string, lines: seq<string>)

  // ----- Sections as lines -----

  /** The lines of a body as written out, each closed by a newline. */
  function BodyLines(body: string): seq<string> {
    var ls := Lines(Normalised(body)); ls[..|ls| - 1]
  }

  function BlockOf(src: Source): Block { Block(Label(src), BodyLines(src.body)) }

  function BlockLines(b: Block): seq<string> {
    [BeginBanner(b.tag)] + b.lines + [EndBanner(b.tag)]
  }

  function Blocks(sources: seq<Source>): seq<Block> {
    seq(|sources|, i requires 0 <= i < |sources| => BlockOf(sources[i]))
  }

  function AllLines(bs: seq<Block>): seq<string> {
    if bs == [] then [] else BlockLines(bs[0]) + AllLines(bs[1..])
  }

  lemma NormalisedIsFlat(body: string)
    ensures Normalised(body) == Flat(BodyLines(body))
    ensures NewlineFree(BodyLines(body))
  {
    var text := Normalised(body);
    PiecesHaveNoSeparator(text, '\n');
    if text != "" {
      var cut := text[..|text| - 1];
      assert text == cut + "\n" + "";
      LinesOfJoin(cut, "");
      assert BodyLines(body) == Lines(cut);
      FlatOfLines(cut);
    }
  }

  lemma SectionIsFlat(src: Source)
    requires '\n' !in Label(src)
    ensures Section(src) == Flat(BlockLines(BlockOf(src)))
    ensures NewlineFree(BlockLines(BlockOf(src)))
  {
    hide Lines, Normalised, BodyLines, Label;
    var tag, body := Label(src), BodyLines(src.body);
    NormalisedIsFlat(src.body);
    FlatOfConcat([BeginBanner(tag)], body + [EndBanner(tag)]);
    FlatOfConcat(body, [EndBanner(tag)]);
    assert BlockLines(BlockOf(src)) == [BeginBanner(tag)] + (body + [EndBanner(tag)]);
    FlatOfOne(BeginBanner(tag));
    FlatOfOne(EndBanner(tag));
    hide Flat, BeginBanner, EndBanner;
    InnerFirst(BeginBanner(tag) + "\n", Normalised(src.body), EndBanner(tag), "\n");
  }

  lemma InnerFirst(a: string, b: string, c: string, d: string)
    ensures a + b + c + d == a + (b + (c + d))
  {
  }

  lemma FlatOfOne(line: string)
    ensures Flat([line]) == line + "\n"
  {
  }

  /** The compiled text is the flat form of its blocks. */
  lemma {:induction false} TextIsFlat(sources: seq<Source>)
    requires LabelsAreOneLine(sources)
    ensures CompiledText(sources) == Flat(AllLines(Blocks(sources)))
    ensures NewlineFree(AllLines(Blocks(sources)))
  {
    hide Section, Label, BlockLines, BlockOf;
    if sources != [] {
      var head, tail := sources[0], sources[1..];
      assert sources == [head] + tail;
      TextIsFlat(tail);
      SectionIsFlat(head);
      TextConcat([head], tail);
      TextOfOne(head);
      FlatOfConcat(BlockLines(BlockOf(head)), AllLines(Blocks(tail)));
      assert Blocks(sources)[1..] == Blocks(tail);
    }
  }

  lemma TextOfOne(src: Source)
    ensures CompiledText([src]) == Section(src)
  {
  }

  // ----- Reading blocks back -----

  /** The label inside a begin banner. */
  function BannerLabel(line: string): string {
    if |line| < 16 then "" else line[12..|line| - 4]
  }

  function ParseBlocks(ls: seq<string>): seq<Block>
    decreases |ls|
  {
    if ls == [] then []
    else
      var tag := BannerLabel(ls[0]);
      var k := IndexOf(ls[1..], EndBanner(tag));
      if k + 1 < |ls| then [Block(tag, ls[1..k + 1])] + ParseBlocks(ls[k + 2..]) else []
  }

  /** The kind and name in a label, split at its first slash. */
  function SplitLabel(tag: string): (string, string) {
    if tag == "" then ("", "")
    else if tag[0] == '/' then ("", tag[1..])
    else var (kind, name) := SplitLabel(tag[1..]); ([tag[0]] + kind, name)
  }

  function SourceOf(b: Block): Source {
    var (kind, name) := SplitLabel(b.tag);
    Source(kind, name, Flat(b.lines))
  }

  function Sources(bs: seq<Block>): seq<Source> {
    if bs == [] then [] else [SourceOf(bs[0])] + Sources(bs[1..])
  }

  function Decode(text: string): seq<Source> {
    var ls := Lines(text);
    Sources(ParseBlocks(ls[..|ls| - 1]))
  }

  /** No line of a body is the end banner of its own section, labels are one line, kinds hold no slash. */
  ghost predicate Readable(src: Source) {
    && '\n' !in Label(src)
    && '/' !in src.kind
    && EndBanner(Label(src)) !in BodyLines(src.body)
  }

  ghost predicate AllReadable(sources: seq<Source>) {
    forall i :: 0 <= i < |sources| ==> Readable(sources[i])
  }

  function WithNormalisedBodies(sources: seq<Source>): seq<Source> {
    if sources == [] then []
    else [sources[0].(body := Normalised(sources[0].body))] + WithNormalisedBodies(sources[1..])
  }

  lemma LabelOfBanner(tag: string)
    ensures BannerLabel(BeginBanner(tag)) == tag
  {
  }

  lemma {:induction false} IndexAfter(ls: seq<string>, line: string, rest: seq<string>)
    requires line !in ls
    ensures IndexOf(ls + [line] + rest, line) == |ls|
  {
    var all := ls + [line] + rest;
    if ls != [] {
      assert all[0] == ls[0] && ls[0] in ls;
      assert all[1..] == ls[1..] + [line] + rest;
      IndexAfter(ls[1..], line, rest);
    }
  }

  lemma {:induction false} SplitOfLabel(kind: string, name: string)
    requires '/' !in kind
    ensures SplitLabel(kind + "/" + name) == (kind, name)
  {
    var tag := kind + "/" + name;
    if kind == "" {
      assert tag[1..] == name;
    } else {
      assert tag[0] == kind[0] && kind[0] in kind;
      assert tag[1..] == kind[1..] + "/" + name;
      SplitOfLabel(kind[1..], name);
      assert kind == [kind[0]] + kind[1..];
    }
  }

  /** Where the end banner closes the first block. */
  lemma FirstBlockEnds(b: Block, rest: seq<string>)
    requires EndBanner(b.tag) !in b.lines
    ensures var (ls, k) := (BlockLines(b) + rest, |b.lines|);
            && ls != [] && ls[0] == BeginBanner(b.tag) && |ls| >= k + 2
            && IndexOf(ls[1..], EndBanner(b.tag)) == k
            && ls[1..k + 1] == b.lines && ls[k + 2..] == rest
  {
    hide IndexOf, EndBanner, BeginBanner;
    var ls := BlockLines(b) + rest;
    assert ls[1..] == b.lines + [EndBanner(b.tag)] + rest;
    IndexAfter(b.lines, EndBanner(b.tag), rest);
  }

  lemma {:induction false} ParseOfBlocks(bs: seq<Block>)
    requires forall i :: 0 <= i < |bs| ==> EndBanner(bs[i].tag) !in bs[i].lines
    ensures ParseBlocks(AllLines(bs)) == bs
  {
    hide EndBanner, BeginBanner, BannerLabel, IndexOf, BlockLines;
    if bs != [] {
      LabelOfBanner(bs[0].tag);
      FirstBlockEnds(bs[0], AllLines(bs[1..]));
      ParseOfBlocks(bs[1..]);
      assert bs == [Block(bs[0].tag, bs[0].lines)] + bs[1..];
    }
  }

  lemma {:induction false} SourcesOfBlocks(sources: seq<Source>)
    requires AllReadable(sources)
    ensures Sources(Blocks(sources)) == WithNormalisedBodies(sources)
  {
    hide SourceOf, BlockOf, Normalised, Readable;
    if sources != [] {
      assert Blocks(sources)[1..] == Blocks(sources[1..]);
      SourceOfItsBlock(sources[0]);
      SourcesOfBlocks(sources[1..]);
    }
  }

  lemma SourceOfItsBlock(src: Source)
    requires Readable(src)
    ensures SourceOf(BlockOf(src)) == src.(body := Normalised(src.body))
  {
    hide BodyLines, Normalised, Flat, SplitLabel;
    NormalisedIsFlat(src.body);
    SplitOfLabel(src.kind, src.name);
  }

  /** Round trip: the compiled text holds exactly the kinds, names and normalised bodies, in order. */
  lemma DecodeOfCompiledText(sources: seq<Source>)
    requires AllReadable(sources)
    ensures Decode(CompiledText(sources)) == WithNormalisedBodies(sources)
  {
    hide Readable;
    assert AllReadable(sources) ==> LabelsAreOneLine(sources) by { OneLineWhenReadable(sources); }
    TextIsFlat(sources);
    LinesOfFlat(AllLines(Blocks(sources)));
    var ls := AllLines(Blocks(sources));
    assert (ls + [""])[..|ls|] == ls;
    OneLineWhenReadable(sources);
    ParseOfBlocks(Blocks(sources));
    SourcesOfBlocks(sources);
  }

  lemma OneLineWhenReadable(sources: seq<Source>)
    requires AllReadable(sources)
    ensures LabelsAreOneLine(sources)
    ensures forall i :: 0 <= i < |sources| ==> EndBanner(Blocks(sources)[i].tag) !in Blocks(sources)[i].lines
  {
  }

  // ----- The hash gate -----

  ghost predicate Injective(sha: string -> string) {
    forall s, t :: sha(s) == sha(t) ==> s == t
  }

  lemma {:induction false} SameNormalisedSameText(a: seq<Source>, b: seq<Source>)
    requires WithNormalisedBodies(a) == WithNormalisedBodies(b)
    ensures CompiledText(a) == CompiledText(b)
  {
    if a != [] && b != [] {
      assert a == [a[0]] + a[1..] && b == [b[0]] + b[1..];
      assert WithNormalisedBodies(a)[0] == WithNormalisedBodies(b)[0];
      assert WithNormalisedBodies(a)[1..] == WithNormalisedBodies(b)[1..];
      SameNormalisedSameText(a[1..], b[1..]);
      SameSection(a[0], b[0]);
      SplitText(a);
      SplitText(b);
    }
  }

  lemma SplitText(a: seq<Source>)
    requires a != []
    ensures CompiledText(a) == Section(a[0]) + CompiledText(a[1..])
  {
    hide Section;
    assert a == [a[0]] + a[1..];
    TextConcat([a[0]], a[1..]);
    TextOfOne(a[0]);
  }

  lemma SameSection(a: Source, b: Source)
    requires a.(body := Normalised(a.body)) == b.(body := Normalised(b.body))
    ensures Section(a) == Section(b)
  {
  }

  /** Two readable source lists get the same digest iff their kinds, names and normalised bodies agree in order. */
  lemma HashGateLosesNoEdit(a: seq<Source>, b: seq<Source>, sha: string -> string)
    requires AllReadable(a) && AllReadable(b) && Injective(sha)
    ensures sha(CompiledText(a)) == sha(CompiledText(b)) <==> WithNormalisedBodies(a) == WithNormalisedBodies(b)
  {
    DecodeOfCompiledText(a);
    DecodeOfCompiledText(b);
    if WithNormalisedBodies(a) == WithNormalisedBodies(b) {
      SameNormalisedSameText(a, b);
    }
  }

  /** An edit to one body changes the digest iff it changes the normalised body, whatever the texts hold. */
  lemma SingleEditIsSeen(before: seq<Source>, src: Source, body: string, after: seq<Source>, sha: string -> string)
    requires Injective(sha)
    ensures sha(CompiledText(before + [src] + after)) == sha(CompiledText(before + [src.(body := body)] + after)) <==>
            Normalised(src.body) == Normalised(body)
  {
    var edited := src.(body := body);
    ThreePartText(before, src, after);
    ThreePartText(before, edited, after);
    var tag := Label(src);
    var (head, tail) := (BeginBanner(tag) + "\n", EndBanner(tag) + "\n");
    assert Label(edited) == tag;
    ContextIsInjective(CompiledText(before) + head, Normalised(src.body), Normalised(body), tail + CompiledText(after))
      by { hide *; }
    SectionInContext(before, src, after);
    SectionInContext(before, edited, after);
  }

  lemma ThreePartText(before: seq<Source>, src: Source, after: seq<Source>)
    ensures CompiledText(before + [src] + after) == CompiledText(before) + Section(src) + CompiledText(after)
  {
    hide Section;
    TextConcat(before + [src], after);
    TextConcat(before, [src]);
    TextOfOne(src);
  }

  lemma SectionInContext(before: seq<Source>, src: Source, after: seq<Source>)
    ensures CompiledText(before) + Section(src) + CompiledText(after) ==
            (CompiledText(before) + (BeginBanner(Label(src)) + "\n")) + Normalised(src.body)
            + ((EndBanner(Label(src)) + "\n") + CompiledText(after))
  {
    hide CompiledText, Normalised, Label, BeginBanner, EndBanner;
  }

  lemma ContextIsInjective(pre: string, x: string, y: string, post: string)
    ensures pre + x + post == pre + y + post <==> x == y
  {
    if pre + x + post == pre + y + post {
      assert |x| == |y|;
      assert (pre + x + post)[|pre|..|pre| + |x|] == x;
      assert (pre + y + post)[|pre|..|pre| + |y|] == y;
    }
  }

  /** A body line equal to its own end banner makes the text ambiguous: one source can look like two. */
  lemma EndBannerInBodyCollides()
    ensures var inner := Source("K", "n", EndBanner("K/n") + "\n" + BeginBanner("K/n") + "\n");
            var plain := Source("K", "n", "");
            && WithNormalisedBodies([inner]) != WithNormalisedBodies([plain, plain])
            && CompiledText([inner]) == CompiledText([plain, plain])
            && !Readable(inner)
  {
    var begin, end := BeginBanner("K/n"), EndBanner("K/n");
    var inner := Source("K", "n", end + "\n" + begin + "\n");
    var plain := Source("K", "n", "");
    assert Label(inner) == Label(plain) == "K/n";
    TextOfOne(inner);
    TextOfOne(plain);
    TextConcat([plain], [plain]);
    assert [plain] + [plain] == [plain, plain];
    assert inner.body[|inner.body| - 1] == '\n';
    SplitInner(begin, end);
    InnerLines(begin, end, inner.body);
    assert WithNormalisedBodies([inner])[0].body == inner.body != "";
  }

  lemma SplitInner(begin: string, end: string)
    ensures begin + "\n" + (end + "\n" + begin + "\n") + end + "\n" == (begin + "\n" + "" + end + "\n") + (begin + "\n" + "" + end + "\n")
  {
  }

  lemma InnerLines(begin: string, end: string, body: string)
    requires body == end + "\n" + begin + "\n" && '\n' !in begin && '\n' !in end
    ensures end in BodyLines(body)
  {
    assert body[|body| - 1] == '\n';
    assert body == end + "\n" + (begin + "\n" + "");
    LinesOfJoin(end, begin + "\n" + "");
    LinesOfJoin(begin, "");
    LinesOfOneLine(end);
    LinesOfOneLine(begin);
    assert Lines(body) == [end, begin, ""];
    assert BodyLines(body)[0] == end;
  }
}
