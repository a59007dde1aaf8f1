/** How output columns are named: `c + suffix`, with suffixes built from the
    period parameters by Python's decimal formatting of an int. */
module Naming {

  predicate IsDigit(ch: char) { '0' <= ch <= '9' }

  function DigitChar(d: nat): (ch: char)
    requires d < 10
    ensures IsDigit(ch)
  {
    "0123456789"[d]
  }

  function DigitValue(ch: char): (d: nat)
    requires IsDigit(ch)
    ensures d < 10
  {
    (ch as int - '0' as int) as nat
  }

  lemma {:induction false} DigitRoundTrip(d: nat)
    requires d < 10
    ensures DigitValue(DigitChar(d)) == d
  {
  }

  /** Decimal digits of `n`, most significant first, without leading zeros. */
  function NatToString(n: nat): (s: string)
    ensures |s| >= 1
    ensures forall i :: 0 <= i < |s| ==> IsDigit(s[i])
    ensures |s| > 1 ==> s[0] != '0'
    ensures n < 10 <==> |s| == 1
  {
    if n < 10 then [DigitChar(n)] else NatToString(n / 10) + [DigitChar(n % 10)]
  }

  /** What `str` of an int looks like: digits, possibly after a leading minus
      sign. */
  predicate IntShaped(s: string) {
    |s| >= 1 && forall i :: 0 <= i < |s| ==> IsDigit(s[i]) || (i == 0 && s[i] == '-')
  }

  /** Python's `str(i)` for an int: an optional minus sign then the digits. */
  function IntToString(i: int): (s: string)
    ensures IntShaped(s)
    ensures '_' !in s
    ensures i >= 0 <==> IsDigit(s[0])
  {
    if i < 0 then "-" + NatToString(-i) else NatToString(i)
  }

  function ParseNat(s: string): nat
    requires forall i :: 0 <= i < |s| ==> IsDigit(s[i])
  {
    if |s| == 0 then 0 else 10 * ParseNat(s[..|s| - 1]) + DigitValue(s[|s| - 1])
  }

  function ParseInt(s: string): int
    requires IntShaped(s)
  {
    if s[0] == '-' then 0 - ParseNat(s[1..]) as int else ParseNat(s)
  }

  lemma {:induction false} ParseNatToString(n: nat)
    ensures ParseNat(NatToString(n)) == n
  {
    var s := NatToString(n);
    if n < 10 {
      DigitRoundTrip(n);
      assert s[..0] == [];
    } else {
      assert s[..|s| - 1] == NatToString(n / 10);
      ParseNatToString(n / 10);
      DigitRoundTrip(n % 10);
    }
  }

  /** A minus sign in front of a digit string negates what it reads as. */
  lemma {:induction false} ParseNegative(s: string)
    requires |s| >= 1 && forall i :: 0 <= i < |s| ==> IsDigit(s[i])
    ensures ParseInt("-" + s) == 0 - ParseNat(s) as int
  {
    DropSign(s);
  }

  lemma {:induction false} DropSign(s: string)
    ensures ("-" + s)[0] == '-' && ("-" + s)[1..] == s
  {
  }

  /** Decimal formatting can be read back, so it loses nothing. */
  lemma {:induction false} ParseIntToString(i: int)
    ensures ParseInt(IntToString(i)) == i
  {
    if i < 0 {
      ParseNegativeToString(i);
    } else {
      ParseNatToString(i);
    }
  }

  lemma {:induction false} ParseNegativeToString(i: int)
    requires i < 0
    ensures ParseInt(IntToString(i)) == i
  {
    var n: nat := -i;
    var s := NatToString(n);
    assert IntToString(i) == "-" + s;
    ParseNegative(s);
    ParseNatToString(n);
  }

  lemma {:induction false} IntToStringInjective(a: int, b: int)
    requires IntToString(a) == IntToString(b)
    ensures a == b
  {
    ParseIntToString(a);
    ParseIntToString(b);
  }

  /** `f"_{tag}_{period}"`, the suffix of the single-period indicators. */
  function PeriodSuffix(tag: string, period: int): string {
    "_" + tag + "_" + IntToString(period)
  }

  /** `f"_macd_{fast}_{slow}"`. */
  function MacdSuffix(fast: int, slow: int): string {
    "_macd_" + IntToString(fast) + "_" + IntToString(slow)
  }

  const SmaTag := "sma"
  const SmmTag := "smm"
  const MsdTag := "msd"
  const EmaTag := "ema"
  const SignalSuffix := "_signal"

  /** Different periods give different suffixes. */
  lemma {:induction false} PeriodSuffixInjective(tag: string, p: int, q: int)
    requires PeriodSuffix(tag, p) == PeriodSuffix(tag, q)
    ensures p == q
  {
    PrefixCancel("_" + tag + "_", IntToString(p), IntToString(q));
    IntToStringInjective(p, q);
  }

  /** The MACD suffix determines both periods, because a formatted int never
      contains the `_` that separates them. */
  lemma {:induction false} MacdSuffixInjective(f1: int, s1: int, f2: int, s2: int)
    requires MacdSuffix(f1, s1) == MacdSuffix(f2, s2)
    ensures f1 == f2 && s1 == s2
  {
    var a1, a2 := IntToString(f1), IntToString(f2);
    var b1, b2 := IntToString(s1), IntToString(s2);
    Regroup("_macd_", a1, b1);
    Regroup("_macd_", a2, b2);
    PrefixCancel("_macd_", a1 + "_" + b1, a2 + "_" + b2);
    SeparatedInjective(a1, b1, a2, b2);
    IntToStringInjective(f1, f2);
    IntToStringInjective(s1, s2);
  }

  lemma {:induction false} Regroup(p: string, a: string, b: string)
    ensures p + a + "_" + b == p + (a + "_" + b)
  {
  }

  /** A common prefix can be cancelled. */
  lemma {:induction false} PrefixCancel(p: string, x: string, y: string)
    requires p + x == p + y
    ensures x == y
  {
    assert x == (p + x)[|p|..];
    assert y == (p + y)[|p|..];
  }

  /** Two parts joined by `_` are recovered from the join when the first
      part holds no `_`. */
  lemma {:induction false} SeparatedInjective(a1: string, b1: string, a2: string, b2: string)
    requires '_' !in a1 && '_' !in a2
    requires a1 + "_" + b1 == a2 + "_" + b2
    ensures a1 == a2 && b1 == b2
  {
    var t := a1 + "_" + b1;
    FirstSeparator(a1, b1);
    FirstSeparator(a2, b2);
    assert |a1| == |a2|;
    assert a1 == t[..|a1|] == a2;
    assert b1 == t[|a1| + 1..] == b2;
  }

  /** In `a + "_" + b` with no `_` in `a`, the first `_` is at `|a|`. */
  lemma {:induction false} FirstSeparator(a: string, b: string)
    requires '_' !in a
    ensures (a + "_" + b)[|a|] == '_'
    ensures forall i :: 0 <= i < |a| ==> (a + "_" + b)[i] != '_'
  {
    forall i | 0 <= i < |a| ensures (a + "_" + b)[i] != '_' {
      assert (a + "_" + b)[i] == a[i];
    }
  }

  /** Appending one suffix keeps distinct names distinct. */
  lemma {:induction false} SuffixInjective(c: string, d: string, suffix: string)
    requires c + suffix == d + suffix
    ensures c == d
  {
    assert c == (c + suffix)[..|c|];
    assert d == (d + suffix)[..|d|];
  }

  lemma {:induction false} ConcreteSuffixes()
    ensures PeriodSuffix(SmaTag, 5) == "_sma_5"
    ensures PeriodSuffix(MsdTag, 20) == "_msd_20"
    ensures MacdSuffix(12, 26) == "_macd_12_26"
  {
    assert NatToString(5) == "5";
    assert NatToString(2) == "2";
    assert NatToString(20) == NatToString(2) + ['0'] == "20";
    assert NatToString(1) == "1";
    assert NatToString(12) == "12";
    assert NatToString(26) == NatToString(2) + ['6'] == "26";
  }
}
