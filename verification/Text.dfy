/**
 Rule text, line by line: Go's `strings.SplitSeq(s, "\n")` and the two regular
 expressions of the compiler, `(?i)^\s*(SecRule|SecAction)\b` and `\bid:(\d+)`,
 read by the rules of the RE2 syntax that Go's regexp package implements: `\s`
 and `\b` are ASCII classes, and case folding also lets U+017F stand for "s".
 */
module Text {
  import opened Wrappers
  import opened Sequences

  // ----- Lines -----

  /** The pieces of `s` between newlines; never empty, also for the empty string. */
  function Lines(s: string): (ls: seq<string>)
    ensures |ls| > 0
  {
    Split(s, '\n')
  }

  /** Every line followed by a newline. */
  function Flat(ls: seq<string>): string {
    if ls == [] then "" else ls[0] + "\n" + Flat(ls[1..])
  }

  ghost predicate NewlineFree(ls: seq<string>) {
    forall i :: 0 <= i < |ls| ==> '\n' !in ls[i]
  }

  lemma LinesOfOneLine(s: string)
    requires '\n' !in s
    ensures Lines(s) == [s]
  {
    SplitOfOne(s, '\n');
  }

  /** Splitting distributes over a joining newline. */
  lemma LinesOfJoin(a: string, b: string)
    ensures Lines(a + "\n" + b) == Lines(a) + Lines(b)
  {
    SplitOfJoin(a, '\n', b);
    assert a + "\n" + b == a + ['\n'] + b;
  }

  /** `Lines` undoes `Flat`, up to the empty piece after the last newline. */
  lemma {:induction false} LinesOfFlat(ls: seq<string>)
    requires NewlineFree(ls)
    ensures Lines(Flat(ls)) == ls + [""]
  {
    hide Lines;
    if ls == [] {
      LinesOfOneLine("");
    } else {
      LinesOfJoin(ls[0], Flat(ls[1..]));
      LinesOfOneLine(ls[0]);
      LinesOfFlat(ls[1..]);
    }
  }

  lemma {:induction false} FlatOfConcat(a: seq<string>, b: seq<string>)
    ensures Flat(a + b) == Flat(a) + Flat(b)
  {
    if a == [] {
      assert a + b == b;
    } else {
      assert (a + b)[1..] == a[1..] + b;
      FlatOfConcat(a[1..], b);
    }
  }

  lemma FlatWithFirst(c: char, ls: seq<string>)
    requires |ls| > 0
    ensures Flat(WithFirst(c, ls)) == [c] + Flat(ls)
  {
    var more := WithFirst(c, ls);
    assert more != [] && more[0] == [c] + ls[0] && more[1..] == ls[1..];
    CharInFront(c, ls[0], "\n", Flat(ls[1..]));
    assert Flat(ls) == ls[0] + "\n" + Flat(ls[1..]);
    hide WithFirst;
  }

  lemma CharInFront(c: char, a: string, b: string, rest: string)
    ensures ([c] + a) + b + rest == [c] + (a + b + rest)
  {
  }

  /** Joining the pieces again gives the text back, plus the final newline. */
  lemma {:induction false} FlatOfLines(s: string)
    ensures Flat(Lines(s)) == s + "\n"
  {
    hide WithFirst;
    if s == "" {
      assert [""][1..] == [];
    } else {
      FlatOfLines(s[1..]);
      assert s + "\n" == [s[0]] + (s[1..] + "\n");
      if s[0] == '\n' {
        assert ([""] + Lines(s[1..]))[1..] == Lines(s[1..]);
      } else {
        FlatWithFirst(s[0], Lines(s[1..]));
      }
    }
  }

  // ----- The rule directive expression -----

  predicate IsSpace(c: char) {
    c == ' ' || c == '\t' || c == '\n' || c == '\U{000C}' || c == '\r'
  }

  predicate IsDigit(c: char) { '0' <= c <= '9' }

  predicate IsWord(c: char) {
    'a' <= c <= 'z' || 'A' <= c <= 'Z' || IsDigit(c) || c == '_'
  }

  /** `c` folds to the lower-case ASCII letter `lower`. */
  predicate FoldsTo(c: char, lower: char) {
    || c == lower
    || ('A' <= c <= 'Z' && c as int + 32 == lower as int)
    || (lower == 's' && c == '\U{017F}')
  }

  function SkipSpaces(s: string): (t: string)
    ensures |t| <= |s|
  {
    if s != "" && IsSpace(s[0]) then SkipSpaces(s[1..]) else s
  }

  /** The keyword starts `t` in any case, and a word boundary follows it. */
  predicate StartsWithKeyword(t: string, keyword: string) {
    && |keyword| <= |t|
    && (forall i :: 0 <= i < |keyword| ==> FoldsTo(t[i], keyword[i]))
    && (|t| == |keyword| || !IsWord(t[|keyword|]))
  }

  predicate IsDirective(line: string) {
    var t := SkipSpaces(line);
    StartsWithKeyword(t, "secrule") || StartsWithKeyword(t, "secaction")
  }

  // The expression `(?i)^\s*(SecRule|SecAction)\b` read off by code points. White space is TAB, LF, FF, CR and SPACE,
  // word characters are ASCII letters, digits and the underscore, and U+017F folds to the letter s.

  predicate White(code: int) { code == 9 || code == 10 || code == 12 || code == 13 || code == 32 }

  predicate WordCode(code: int) { 48 <= code <= 57 || 65 <= code <= 90 || code == 95 || 97 <= code <= 122 }

  /** The text begins with the keyword in any case, and no word character follows. */
  ghost predicate KeywordIn(t: string, lower: string, upper: string) {
    && |t| >= |lower| == |upper|
    && (forall i :: 0 <= i < |lower| ==>
          t[i] == lower[i] || t[i] == upper[i] || (lower[i] == 's' && t[i] as int == 0x17F))
    && (|t| > |lower| ==> !WordCode(t[|lower|] as int))
  }

  ghost predicate DirectiveFrom(line: string, k: int) {
    && 0 <= k <= |line|
    && (forall i :: 0 <= i < k ==> White(line[i] as int))
    && (KeywordIn(line[k..], "secrule", "SECRULE") || KeywordIn(line[k..], "secaction", "SECACTION"))
  }

  lemma KeywordsAgree(t: string)
    ensures StartsWithKeyword(t, "secrule") <==> KeywordIn(t, "secrule", "SECRULE")
    ensures StartsWithKeyword(t, "secaction") <==> KeywordIn(t, "secaction", "SECACTION")
  {
    SameKeyword(t, "secrule", "SECRULE");
    SameKeyword(t, "secaction", "SECACTION");
  }

  lemma SameKeyword(t: string, lower: string, upper: string)
    requires |lower| == |upper| && forall i :: 0 <= i < |lower| ==> 'a' <= lower[i] <= 'z' && upper[i] as int == lower[i] as int - 32
    ensures StartsWithKeyword(t, lower) <==> KeywordIn(t, lower, upper)
  {
    if |lower| <= |t| {
      forall i | 0 <= i < |lower|
        ensures FoldsTo(t[i], lower[i]) <==>
                t[i] == lower[i] || t[i] == upper[i] || (lower[i] == 's' && t[i] as int == 0x17F)
      {
      }
    }
  }

  lemma {:induction false} SkipSpacesTo(line: string, k: nat)
    requires k <= |line| && (forall i :: 0 <= i < k ==> IsSpace(line[i])) && (k < |line| ==> !IsSpace(line[k]))
    ensures SkipSpaces(line) == line[k..]
  {
    if k > 0 {
      SkipSpacesTo(line[1..], k - 1);
      assert line[1..][k - 1..] == line[k..];
    }
  }

  lemma {:induction false} SkipsOnlySpaces(line: string) returns (k: nat)
    ensures k <= |line| && SkipSpaces(line) == line[k..] && forall i :: 0 <= i < k ==> IsSpace(line[i])
  {
    if line != "" && IsSpace(line[0]) {
      k := SkipsOnlySpaces(line[1..]);
      assert line[1..][k..] == line[k + 1..];
      forall i | 0 <= i < k + 1 ensures IsSpace(line[i]) {
        assert i > 0 ==> line[i] == line[1..][i - 1];
      }
      k := k + 1;
    } else {
      k := 0;
    }
  }

  /** A line is a directive iff the expression matches, from whatever position its white space ends. */
  lemma DirectiveIsMatch(line: string)
    ensures IsDirective(line) <==> exists k :: DirectiveFrom(line, k)
  {
    hide StartsWithKeyword, KeywordIn, SkipSpaces;
    if IsDirective(line) {
      var k := SkipsOnlySpaces(line);
      KeywordsAgree(line[k..]);
      assert DirectiveFrom(line, k);
    }
    forall k | DirectiveFrom(line, k) ensures IsDirective(line) {
      KeywordsAgree(line[k..]);
      KeywordIsNoSpace(line[k..]);
      SkipSpacesTo(line, k);
    }
  }

  lemma KeywordIsNoSpace(t: string)
    requires StartsWithKeyword(t, "secrule") || StartsWithKeyword(t, "secaction")
    ensures t != "" && !IsSpace(t[0])
  {
    assert |"secrule"| == 7 && |"secaction"| == 9 && "secrule"[0] == 's' && "secaction"[0] == 's';
    assert FoldsTo(t[0], 's');
  }

  lemma DirectiveIsLong(line: string)
    requires IsDirective(line)
    ensures |line| >= 7
  {
  }

  // ----- The rule id expression -----

  /** `\bid:\d` matches at position `p`. */
  predicate IdAt(line: string, p: nat) {
    && p + 3 < |line|
    && line[p] == 'i' && line[p + 1] == 'd' && line[p + 2] == ':'
    && IsDigit(line[p + 3])
    && (p == 0 || !IsWord(line[p - 1]))
  }

  /** The leftmost match at or after `p`. */
  function FindId(line: string, p: nat): (r: Option<nat>)
    ensures r.Some? ==> p <= r.value && IdAt(line, r.value) && forall q :: p <= q < r.value ==> !IdAt(line, q)
    ensures r.None? ==> forall q :: p <= q ==> !IdAt(line, q)
    decreases |line| - p
  {
    if p >= |line| then None
    else if IdAt(line, p) then Some(p)
    else FindId(line, p + 1)
  }

  /** The longest run of digits at the front of `s`. */
  function Digits(s: string): (d: string)
    ensures d <= s && (forall i :: 0 <= i < |d| ==> IsDigit(d[i])) && (|d| < |s| ==> !IsDigit(s[|d|]))
  {
    if s != "" && IsDigit(s[0]) then [s[0]] + Digits(s[1..]) else ""
  }

  /** The first `id:` number of a line. */
  function RuleId(line: string): (id: Option<string>) {
    var at := FindId(line, 0);
    if at.None? then None else Some(Digits(line[at.value + 3..]))
  }

  /** `\bid:(\d+)` read off by code points: at `p` comes "id:" after no word character, and `d` is the whole run of digits
      that follows. */
  ghost predicate IdMatch(line: string, p: int, d: string) {
    && 0 <= p && p + 3 + |d| <= |line| && |d| > 0
    && line[p..p + 3] == "id:"
    && (p > 0 ==> !WordCode(line[p - 1] as int))
    && line[p + 3..p + 3 + |d|] == d
    && (forall i :: 0 <= i < |d| ==> 48 <= d[i] as int <= 57)
    && (p + 3 + |d| < |line| ==> !(48 <= line[p + 3 + |d|] as int <= 57))
  }

  /** The number is that of the leftmost match. */
  ghost predicate FirstIdMatch(line: string, p: int, d: string) {
    IdMatch(line, p, d) && forall q, e :: 0 <= q < p ==> !IdMatch(line, q, e)
  }

  function NumberAt(line: string, p: nat): string { if p + 3 <= |line| then Digits(line[p + 3..]) else "" }

  lemma IdMatchIsIdAt(line: string, p: nat, d: string)
    ensures IdMatch(line, p, d) <==> IdAt(line, p) && d == NumberAt(line, p)
  {
    hide IdMatch, IdAt, NumberAt;
    if IdAt(line, p) && d == NumberAt(line, p) {
      IdAtMatches(line, p);
    }
    if IdMatch(line, p, d) {
      MatchIsIdAt(line, p, d);
    }
  }

  lemma IdAtMatches(line: string, p: nat)
    requires IdAt(line, p)
    ensures IdMatch(line, p, NumberAt(line, p))
  {
    var rest, d := line[p + 3..], Digits(line[p + 3..]);
    hide Digits;
    assert IsDigit(rest[0]) && d != "";
    assert line[p..p + 3] == "id:" && line[p + 3..p + 3 + |d|] == rest[..|d|];
  }

  lemma MatchIsIdAt(line: string, p: nat, d: string)
    requires IdMatch(line, p, d)
    ensures IdAt(line, p) && d == NumberAt(line, p)
  {
    hide Digits;
    var here := line[p..p + 3];
    assert line[p] == here[0] && line[p + 1] == here[1] && line[p + 2] == here[2];
    var rest := line[p + 3..];
    assert rest[..|d|] == d && d[0] == line[p + 3];
    SameRun(rest, d);
  }

  /** Two maximal runs of digits at the front of a text are one. */
  lemma SameRun(s: string, d: string)
    requires d <= s && (forall i :: 0 <= i < |d| ==> IsDigit(d[i])) && (|d| < |s| ==> !IsDigit(s[|d|]))
    ensures d == Digits(s)
  {
    assert |Digits(s)| == |d|;
  }

  /** The id of a line is the whole number of the leftmost match. */
  lemma RuleIdIsMatch(line: string, d: string)
    ensures RuleId(line) == Some(d) <==> exists p :: FirstIdMatch(line, p, d)
  {
    hide IdMatch, IdAt, Digits, NumberAt;
    var at := FindId(line, 0);
    if RuleId(line) == Some(d) {
      assert FindsNumber(line) by { RuleIdIsNumber(line); }
      IdMatchIsIdAt(line, at.value, d);
      forall q, e | 0 <= q < at.value ensures !IdMatch(line, q, e) {
        IdMatchIsIdAt(line, q, e);
      }
      assert FirstIdMatch(line, at.value, d);
    }
    forall p | FirstIdMatch(line, p, d) ensures RuleId(line) == Some(d) {
      MatchesInside(line, p, d);
      IdMatchIsIdAt(line, p, d);
      IdMatchIsIdAt(line, at.value, NumberAt(line, at.value));
      RuleIdIsNumber(line);
    }
  }

  /** And there is none iff nothing matches. */
  lemma NoRuleIdIsNoMatch(line: string)
    ensures RuleId(line).None? <==> forall p, d :: !IdMatch(line, p, d)
  {
    hide IdMatch, IdAt, Digits;
    if RuleId(line).None? {
      forall p, d ensures !IdMatch(line, p, d) {
        if IdMatch(line, p, d) {
          MatchesInside(line, p, d);
          IdMatchIsIdAt(line, p, d);
        }
      }
    } else {
      var p := FindId(line, 0).value;
      IdMatchIsIdAt(line, p, NumberAt(line, p));
    }
  }

  ghost predicate FindsNumber(line: string) {
    RuleId(line).Some? ==> FindId(line, 0).Some? && RuleId(line).value == NumberAt(line, FindId(line, 0).value)
  }

  lemma RuleIdIsNumber(line: string)
    ensures FindsNumber(line) && (FindId(line, 0).Some? ==> RuleId(line).Some?)
  {
  }

  lemma MatchesInside(line: string, p: int, d: string)
    requires IdMatch(line, p, d)
    ensures 0 <= p < |line|
  {
  }
}
