/** Decimal text of integers, as strconv.Itoa writes and strconv.Atoi reads it, and comma-separated lists. */
module Numerals {
  import opened Sequences

  function Digit(d: int): char
    requires 0 <= d < 10
  {
    (d + '0' as int) as char
  }

  function NatText(n: nat): (s: string)
    ensures s != "" && forall i :: 0 <= i < |s| ==> '0' <= s[i] <= '9'
  {
    if n < 10 then [Digit(n)] else NatText(n / 10) + [Digit(n % 10)]
  }

  function Itoa(n: int): string { if n < 0 then "-" + NatText(-n) else NatText(n) }

  function NatValue(s: string): int {
    if s == "" then 0 else 10 * NatValue(s[..|s| - 1]) + (s[|s| - 1] as int - '0' as int)
  }

  function Atoi(s: string): int {
    if s != "" && s[0] == '-' then -NatValue(s[1..]) else NatValue(s)
  }

  lemma {:induction false} NatValueOfText(n: nat)
    ensures NatValue(NatText(n)) == n
  {
    var s := NatText(n);
    if n < 10 {
      assert s[..0] == "";
    } else {
      NatValueOfText(n / 10);
      assert s[..|s| - 1] == NatText(n / 10);
    }
  }

  function PowerOfTen(k: nat): nat { if k == 0 then 1 else 10 * PowerOfTen(k - 1) }

  /** The number a text of digits stands for, place by place from the left. */
  function PlaceValue(s: string): int {
    if s == "" then 0 else (s[0] as int - 48) * PowerOfTen(|s| - 1) + PlaceValue(s[1..])
  }

  lemma {:induction false} PlaceValueOfMore(s: string, c: char)
    ensures PlaceValue(s + [c]) == 10 * PlaceValue(s) + (c as int - 48)
  {
    if s != "" {
      PlaceValueOfMore(s[1..], c);
      assert (s + [c])[1..] == s[1..] + [c];
      TimesTen(s[0] as int - 48, PowerOfTen(|s| - 1));
    } else {
      assert [c][1..] == "" && PowerOfTen(0) == 1;
    }
  }

  lemma TimesTen(x: int, p: int)
    ensures x * (10 * p) == 10 * (x * p)
  {
  }

  /** The text of a number is its decimal form: its places add up to the number, and it has no leading zero. */
  lemma {:induction false} TextIsDecimal(n: nat)
    ensures PlaceValue(NatText(n)) == n && (n > 0 ==> NatText(n)[0] != '0') && (n == 0 ==> NatText(n) == "0")
  {
    if n < 10 {
      PlaceValueOfMore("", Digit(n));
      assert "" + [Digit(n)] == NatText(n);
    } else {
      TextIsDecimal(n / 10);
      PlaceValueOfMore(NatText(n / 10), Digit(n % 10));
    }
  }

  lemma AtoiOfItoa(n: int)
    ensures Atoi(Itoa(n)) == n
  {
    if n < 0 {
      NatValueOfText(-n);
      assert Itoa(n)[1..] == NatText(-n);
    } else {
      NatValueOfText(n);
    }
  }

  lemma ItoaHasNoComma(n: int)
    ensures ',' !in Itoa(n) && Itoa(n) != ""
  {
  }

  // ----- Comma-separated lists -----

  function Join(xs: seq<string>): string {
    if xs == [] then "" else if |xs| == 1 then xs[0] else xs[0] + "," + Join(xs[1..])
  }

  lemma {:induction false} SplitOfJoined(xs: seq<string>)
    requires xs != [] && forall i :: 0 <= i < |xs| ==> ',' !in xs[i]
    ensures Split(Join(xs), ',') == xs
  {
    SplitOfOne(xs[0], ',');
    if |xs| > 1 {
      SplitOfJoined(xs[1..]);
      SplitOfJoin(xs[0], ',', Join(xs[1..]));
      assert xs[0] + "," + Join(xs[1..]) == xs[0] + [','] + Join(xs[1..]);
      assert xs == [xs[0]] + xs[1..];
    }
  }
}
