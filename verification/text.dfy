/** Decimal text as Python's `str(n)` and `"%0<w>d" % n` produce it, the
    matching parser, and the line structure of the text files the emitters
    write. The parsers are the partners of the formatters: every formatter
    below is proved to be undone by its parser. */
module Text {
  import opened Results

  predicate IsDigit(c: char) {
    '0' <= c <= '9'
  }

  predicate AllDigits(s: string) {
    forall i :: 0 <= i < |s| ==> IsDigit(s[i])
  }

  function DigitChar(d: nat): (c: char)
    requires d < 10
    ensures IsDigit(c) && c as int - '0' as int == d
  {
    ('0' as int + d) as char
  }

  /** Value of a run of decimal digits, most significant first. */
  function DigitsValue(s: string): nat
    requires AllDigits(s)
  {
    if |s| == 0 then 0
    else DigitsValue(s[..|s| - 1]) * 10 + (s[|s| - 1] as int - '0' as int)
  }

  /** Python `str(n)` for a non-negative integer. */
  function NatToString(n: nat): (s: string)
    ensures 1 <= |s| && AllDigits(s)
    ensures s[0] == '0' ==> n == 0 && |s| == 1
  {
    if n < 10 then [DigitChar(n)]
    else NatToString(n / 10) + [DigitChar(n % 10)]
  }

  lemma {:induction false} NatToStringRoundTrip(n: nat)
    ensures DigitsValue(NatToString(n)) == n
  {
    if n >= 10 {
      var s := NatToString(n);
      var p := NatToString(n / 10);
      assert s == p + [DigitChar(n % 10)];
      assert s[..|s| - 1] == p;
      NatToStringRoundTrip(n / 10);
    }
  }

  lemma NatToStringInjective(m: nat, n: nat)
    requires NatToString(m) == NatToString(n)
    ensures m == n
  {
    NatToStringRoundTrip(m);
    NatToStringRoundTrip(n);
  }

  function Zeros(k: nat): (z: string)
    ensures |z| == k && forall i :: 0 <= i < k ==> z[i] == '0'
  {
    if k == 0 then [] else Zeros(k - 1) + ['0']
  }

  lemma {:induction false} ZerosValue(k: nat)
    ensures AllDigits(Zeros(k)) && DigitsValue(Zeros(k)) == 0
  {
    if k > 0 {
      assert Zeros(k)[..k - 1] == Zeros(k - 1);
      ZerosValue(k - 1);
    }
  }

  /** Leading zeros do not change the value of a digit run. */
  lemma {:induction false} LeadingZerosValue(k: nat, s: string)
    requires AllDigits(s)
    ensures AllDigits(Zeros(k) + s) && DigitsValue(Zeros(k) + s) == DigitsValue(s)
  {
    var t := Zeros(k) + s;
    if |s| == 0 {
      assert t == Zeros(k);
      ZerosValue(k);
    } else {
      var s' := s[..|s| - 1];
      assert t[..|t| - 1] == Zeros(k) + s';
      LeadingZerosValue(k, s');
    }
  }

  /** Left-pads `s` with '0' up to `width` characters. */
  function ZeroPad(s: string, width: nat): (r: string)
    ensures |r| == if |s| >= width then |s| else width
    ensures r == Zeros(|r| - |s|) + s
  {
    if |s| >= width then s else Zeros(width - |s|) + s
  }

  /** Python `"%0<width>d" % n`: the sign, when present, counts towards the width. */
  function FormatInt(n: int, width: nat): (r: string)
    ensures |r| >= width
    ensures n >= 0 ==> AllDigits(r)
    ensures n < 0 ==> |r| >= 1 && r[0] == '-' && AllDigits(r[1..])
  {
    if n >= 0 then ZeroPad(NatToString(n), width)
    else "-" + ZeroPad(NatToString(-n), if width == 0 then 0 else width - 1)
  }

  /** Number of leading digit characters of `s`. */
  function DigitSpan(s: string): (k: nat)
    ensures k <= |s| && AllDigits(s[..k])
    ensures k < |s| ==> !IsDigit(s[k])
  {
    if |s| > 0 && IsDigit(s[0]) then
      var k := 1 + DigitSpan(s[1..]);
      assert forall i :: 1 <= i < k ==> s[..k][i] == s[1..][..k - 1][i - 1];
      k
    else 0
  }

  predicate StartsWithNonDigit(rest: string) {
    rest == [] || !IsDigit(rest[0])
  }

  lemma {:induction false} DigitSpanOfDigits(ds: string, rest: string)
    requires AllDigits(ds) && StartsWithNonDigit(rest)
    ensures DigitSpan(ds + rest) == |ds|
  {
    if |ds| > 0 {
      assert (ds + rest)[1..] == ds[1..] + rest;
      DigitSpanOfDigits(ds[1..], rest);
    }
  }

  /** Reads a run of decimal digits off the front of `s`, returning its
      value and the unread remainder. */
  function ParseNat(s: string): Option<(nat, string)>
  {
    var k := DigitSpan(s);
    if k == 0 then None else Some((DigitsValue(s[..k]), s[k..]))
  }

  /** Reads an optionally negative decimal integer off the front of `s`. */
  function ParseInt(s: string): Option<(int, string)>
  {
    if |s| > 0 && s[0] == '-' then
      match ParseNat(s[1..])
      case None => None
      case Some((v, rest)) => Some((-(v as int), rest))
    else
      match ParseNat(s)
      case None => None
      case Some((v, rest)) => Some((v as int, rest))
  }

  lemma PaddedDigitsValue(n: nat, width: nat)
    ensures AllDigits(ZeroPad(NatToString(n), width))
    ensures DigitsValue(ZeroPad(NatToString(n), width)) == n
  {
    var s := NatToString(n);
    LeadingZerosValue(|ZeroPad(s, width)| - |s|, s);
    NatToStringRoundTrip(n);
  }

  lemma ParseNatDigitsThenRest(p: string, rest: string)
    requires AllDigits(p) && |p| >= 1 && StartsWithNonDigit(rest)
    ensures ParseNat(p + rest) == Some((DigitsValue(p), rest))
  {
    var t := p + rest;
    DigitSpanOfDigits(p, rest);
    assert t[..|p|] == p && t[|p|..] == rest;
  }

  lemma NegRoundTrip(m: nat, w: nat, rest: string)
    requires StartsWithNonDigit(rest)
    ensures ParseInt("-" + ZeroPad(NatToString(m), w) + rest) == Some((-(m as int), rest))
  {
    var p := ZeroPad(NatToString(m), w);
    PaddedDigitsValue(m, w);
    NegDigits(p, rest, m);
  }

  lemma NegDigits(p: string, rest: string, v: nat)
    requires AllDigits(p) && |p| >= 1 && DigitsValue(p) == v && StartsWithNonDigit(rest)
    ensures ParseInt("-" + p + rest) == Some((-(v as int), rest))
  {
    ParseNatDigitsThenRest(p, rest);
    ParseIntMinus(p, rest, v);
  }

  lemma ParseIntMinus(p: string, rest: string, v: nat)
    requires ParseNat(p + rest) == Some((v, rest))
    ensures ParseInt("-" + p + rest) == Some((-(v as int), rest))
  {
    assert ("-" + p + rest)[1..] == p + rest;
  }

  /** `FormatInt` is undone by `ParseInt`, whatever non-digit text follows. */
  lemma FormatIntRoundTrip(n: int, width: nat, rest: string)
    requires StartsWithNonDigit(rest)
    ensures ParseInt(FormatInt(n, width) + rest) == Some((n, rest))
  {
    if n >= 0 {
      PosRoundTrip(n, width, rest);
    } else {
      NegFormatRoundTrip(n, width, rest);
    }
  }

  lemma NegFormatRoundTrip(n: int, width: nat, rest: string)
    requires n < 0 && StartsWithNonDigit(rest)
    ensures ParseInt(FormatInt(n, width) + rest) == Some((n, rest))
  {
    var m: nat := -n;
    NegRoundTrip(m, if width == 0 then 0 else width - 1, rest);
  }

  lemma PosRoundTrip(n: nat, w: nat, rest: string)
    requires StartsWithNonDigit(rest)
    ensures ParseInt(ZeroPad(NatToString(n), w) + rest) == Some((n as int, rest))
  {
    var p := ZeroPad(NatToString(n), w);
    PaddedDigitsValue(n, w);
    ParseNatDigitsThenRest(p, rest);
  }

  lemma FormatIntInjective(m: int, n: int, width: nat)
    requires FormatInt(m, width) == FormatInt(n, width)
    ensures m == n
  {
    FormatIntRoundTrip(m, width, "");
    FormatIntRoundTrip(n, width, "");
    assert FormatInt(m, width) + "" == FormatInt(m, width);
    assert FormatInt(n, width) + "" == FormatInt(n, width);
  }

  predicate NoNewline(l: string) {
    forall i :: 0 <= i < |l| ==> l[i] != '\n'
  }

  lemma NoNewlineConcat(a: string, b: string)
    requires NoNewline(a) && NoNewline(b)
    ensures NoNewline(a + b)
  {
    forall i | 0 <= i < |a + b| ensures (a + b)[i] != '\n' {
      if i >= |a| {
        assert (a + b)[i] == b[i - |a|];
      }
    }
  }

  lemma FormatIntNoNewline(n: int, width: nat)
    ensures NoNewline(FormatInt(n, width))
  {
    var r := FormatInt(n, width);
    if n < 0 {
      forall i | 1 <= i < |r| ensures r[i] != '\n' {
        assert r[i] == r[1..][i - 1];
      }
    }
  }

  /** The text of a file written line by line, each line ended by "\n". */
  function JoinLines(ls: seq<string>): string
  {
    if ls == [] then [] else ls[0] + "\n" + JoinLines(ls[1..])
  }

  function FirstNewline(s: string): (i: nat)
    ensures i <= |s| && NoNewline(s[..i])
    ensures i < |s| ==> s[i] == '\n'
  {
    if |s| == 0 || s[0] == '\n' then 0
    else
      var i := 1 + FirstNewline(s[1..]);
      assert forall j :: 1 <= j < i ==> s[..i][j] == s[1..][..i - 1][j - 1];
      i
  }

  /** Splits a text into its lines; the partner of `JoinLines`. */
  function SplitLines(s: string): seq<string>
    decreases |s|
  {
    if s == [] then []
    else
      var i := FirstNewline(s);
      if i == |s| then [s] else [s[..i]] + SplitLines(s[i + 1..])
  }

  lemma {:induction false} FirstNewlineOfLine(l: string, rest: string)
    requires NoNewline(l)
    ensures FirstNewline(l + "\n" + rest) == |l|
  {
    if |l| > 0 {
      assert (l + "\n" + rest)[1..] == l[1..] + "\n" + rest;
      FirstNewlineOfLine(l[1..], rest);
    }
  }

  lemma {:induction false} SplitJoinLines(ls: seq<string>)
    requires forall k :: 0 <= k < |ls| ==> NoNewline(ls[k])
    ensures SplitLines(JoinLines(ls)) == ls
  {
    if ls != [] {
      var s := JoinLines(ls);
      FirstNewlineOfLine(ls[0], JoinLines(ls[1..]));
      assert s[..|ls[0]|] == ls[0];
      assert s[|ls[0]| + 1..] == JoinLines(ls[1..]);
      SplitJoinLines(ls[1..]);
    }
  }

  lemma {:induction false} JoinLinesAppend(a: seq<string>, b: seq<string>)
    ensures JoinLines(a + b) == JoinLines(a) + JoinLines(b)
  {
    if a != [] {
      assert (a + b)[1..] == a[1..] + b;
      JoinLinesAppend(a[1..], b);
    } else {
      assert a + b == b;
    }
  }
}
