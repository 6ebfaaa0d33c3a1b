/** The Excellon drill-file writer of excellon.py. `holes` maps each drill
    diameter (millimetres) to the centres drilled with it. Tools are numbered
    from `T2` upwards in ascending order of diameter; coordinates are written
    in thousandths of a millimetre. */
module ExcellonOut {
  import opened Results
  import opened Text
  import opened Angles

  type Holes = map<real, seq<(real, real)>>

  // ---------------------------------------------------------------- tools

  /** `m` is the least member of `s`. */
  predicate IsLeast(m: real, s: set<real>) {
    m in s && forall x :: x in s ==> m <= x
  }

  lemma {:induction false} HasLeast(s: set<real>)
    requires s != {}
    ensures exists m :: IsLeast(m, s)
    decreases |s|
  {
    var y := Member(s);
    var rest := s - {y};
    if rest == {} {
      forall x | x in s ensures y <= x {
        assert x !in rest;
      }
      assert IsLeast(y, s);
    } else {
      HasLeast(rest);
      var m :| IsLeast(m, rest);
      var least := if y < m then y else m;
      forall x | x in s ensures least <= x {
        if x != y {
          assert x in rest;
        }
      }
      assert IsLeast(least, s);
    }
  }

  /** Some member of a non-empty set. */
  ghost function Member(s: set<real>): (y: real)
    requires s != {}
    ensures y in s
  {
    assert exists y :: y in s by {
      if forall y :: y !in s {
        assert false;
      }
    }
    var y :| y in s; y
  }

  /** The least member of a non-empty set. */
  function Least(s: set<real>): (m: real)
    requires s != {}
    ensures m in s && forall x :: x in s ==> m <= x
  {
    HasLeast(s);
    var m :| IsLeast(m, s); m
  }

  /** `sorted(s)` for a set of distinct diameters: every member once, in
      strictly ascending order. */
  function Sorted(s: set<real>): (r: seq<real>)
    ensures |r| == |s|
    ensures forall x :: x in r <==> x in s
    ensures forall i, j :: 0 <= i < j < |r| ==> r[i] < r[j]
    decreases |s|
  {
    if s == {} then []
    else
      var m := Least(s);
      var rest := Sorted(s - {m});
      assert forall j :: 0 <= j < |rest| ==> m < rest[j] by {
        forall j | 0 <= j < |rest| ensures m < rest[j] {
          assert rest[j] in s - {m};
        }
      }
      [m] + rest
  }

  /** `tools = sorted(holes.keys())`. */
  function Tools(holes: Holes): (tools: seq<real>)
    ensures forall d :: d in tools <==> d in holes
    ensures forall i, j :: 0 <= i < j < |tools| ==> tools[i] < tools[j]
  {
    Sorted(holes.Keys)
  }

  // ---------------------------------------------------------------- tool declarations

  /** `round(d * 1000)` with the sign of `d`: the diameter in micrometres
      that `"%.3f" % d` shows. */
  function Milli(d: real): (k: int)
    ensures d * 1000.0 - 0.5 <= k as real <= d * 1000.0 + 0.5
  {
    if d < 0.0 then -RoundHalfEven(-d * 1000.0) else RoundHalfEven(d * 1000.0)
  }

  /** An unsigned number of thousandths as `int.ddd`. */
  function Thousandths(k: nat): string {
    NatToString(k / 1000) + ("." + ZeroPad(NatToString(k % 1000), 3))
  }

  /** `"%.3f" % d`: sign, integer part, point and three decimals. */
  function Fixed3(d: real): string {
    if d < 0.0 then "-" + Thousandths(-Milli(d)) else Thousandths(Milli(d))
  }

  /** Reads `int.ddd` back into thousandths. */
  function ParseFixed3(s: string): Option<int> {
    if |s| > 0 && s[0] == '-' then
      match ParseUnsigned3(s[1..])
      case None => None
      case Some(k) => Some(-k)
    else ParseUnsigned3(s)
  }

  function ParseUnsigned3(s: string): Option<int> {
    match ParseNat(s)
    case None => None
    case Some((a, rest)) =>
      if |rest| == 4 && rest[0] == '.' && AllDigits(rest[1..]) then Some(a * 1000 + DigitsValue(rest[1..]))
      else None
  }

  lemma Unsigned3RoundTrip(k: nat)
    ensures ParseUnsigned3(Thousandths(k)) == Some(k)
  {
    var q: nat, r: nat := k / 1000, k % 1000;
    var f := ZeroPad(NatToString(r), 3);
    PaddedDigitsValue(r, 3);
    SmallNatDigits(r);
    NatToStringRoundTrip(q);
    Unsigned3Of(NatToString(q), f, q, r);
  }

  lemma Unsigned3Of(a: string, f: string, q: nat, r: nat)
    requires AllDigits(a) && |a| >= 1 && DigitsValue(a) == q
    requires AllDigits(f) && |f| == 3 && DigitsValue(f) == r
    ensures ParseUnsigned3(a + ("." + f)) == Some(q * 1000 + r)
  {
    var rest := "." + f;
    ParseNatDigitsThenRest(a, rest);
    assert rest[1..] == f;
  }

  /** A number below 1000 takes at most three digits. */
  lemma SmallNatDigits(n: nat)
    requires n < 1000
    ensures |NatToString(n)| <= 3
  {
    if n >= 10 {
      assert NatToString(n) == NatToString(n / 10) + [DigitChar(n % 10)];
      if n / 10 >= 10 {
        assert NatToString(n / 10) == NatToString(n / 100) + [DigitChar((n / 10) % 10)];
      }
    }
  }

  /** The written diameter reads back as the rounded diameter in
      thousandths of a millimetre. */
  lemma Fixed3RoundTrip(d: real)
    ensures ParseFixed3(Fixed3(d)) == Some(Milli(d))
  {
    if d < 0.0 {
      var t := Thousandths(-Milli(d));
      Unsigned3RoundTrip(-Milli(d));
      assert ("-" + t)[1..] == t;
    } else {
      Unsigned3RoundTrip(Milli(d));
      assert Thousandths(Milli(d))[0] != '-';
    }
  }

  /** The tool number of the `i`-th diameter. */
  function ToolNumber(i: nat): nat { i + 2 }

  /** One line of `p0`: `T<n>C<diameter>`. */
  function Decl(i: nat, d: real): string {
    "T" + (NatToString(ToolNumber(i)) + ("C" + Fixed3(d)))
  }

  /** `p0` as lines. */
  function Decls(tools: seq<real>): (ls: seq<string>)
    ensures |ls| == |tools|
  {
    seq(|tools|, i requires 0 <= i < |tools| => Decl(i, tools[i]))
  }

  /** Reads a declaration back as its tool number and diameter. */
  function ParseDecl(line: string): Option<(nat, int)> {
    if |line| == 0 || line[0] != 'T' then None
    else match ParseNat(line[1..])
      case None => None
      case Some((n, rest)) =>
        if |rest| == 0 || rest[0] != 'C' then None
        else match ParseFixed3(rest[1..])
          case None => None
          case Some(k) => Some((n, k))
  }

  /** The declaration section names one tool per distinct diameter, in
      ascending order of diameter, the `i`-th as `T(i+2)`. */
  lemma DeclsRoundTrip(holes: Holes)
    ensures |Decls(Tools(holes))| == |holes|
    ensures forall i :: 0 <= i < |holes| ==>
      ParseDecl(Decls(Tools(holes))[i]) == Some((ToolNumber(i), Milli(Tools(holes)[i])))
  {
    var tools := Tools(holes);
    assert |tools| == |holes.Keys|;
    forall i | 0 <= i < |holes|
      ensures ParseDecl(Decls(tools)[i]) == Some((ToolNumber(i), Milli(tools[i])))
    {
      DeclRoundTrip(i, tools[i]);
    }
  }

  lemma DeclRoundTrip(i: nat, d: real)
    ensures ParseDecl(Decl(i, d)) == Some((ToolNumber(i), Milli(d)))
  {
    var n := NatToString(ToolNumber(i));
    var rest := "C" + Fixed3(d);
    assert Decl(i, d)[1..] == n + rest;
    ParseNatDigitsThenRest(n, rest);
    NatToStringRoundTrip(ToolNumber(i));
    assert rest[1..] == Fixed3(d);
    Fixed3RoundTrip(d);
  }

  // ---------------------------------------------------------------- hits

  /** `int(round(n * 1000))`: a coordinate in micrometres. */
  function Scale(n: real): (k: int)
    ensures n * 1000.0 - 0.5 <= k as real <= n * 1000.0 + 0.5
  {
    RoundHalfEven(n * 1000.0)
  }

  /** `number(n)`: the scaled coordinate as `"%03d"`. */
  function Number(n: real): string {
    FormatInt(Scale(n), 3)
  }

  /** One hit: `X<x>Y<y>`. */
  function HitLine(xy: (real, real)): string {
    "X" + (Number(xy.0) + ("Y" + Number(xy.1)))
  }

  /** The tool selection line `T<n>`. */
  function ToolLine(i: nat): string {
    "T" + NatToString(ToolNumber(i))
  }

  /** `hits(i, xys)` as lines. */
  function Hits(i: nat, xys: seq<(real, real)>): (ls: seq<string>)
    ensures |ls| == |xys| + 1
    ensures ls[0] == ToolLine(i)
    ensures forall k :: 0 <= k < |xys| ==> ls[k + 1] == HitLine(xys[k])
  {
    var hs := HitLines(xys);
    assert forall k :: 0 <= k < |xys| ==> ([ToolLine(i)] + hs)[k + 1] == hs[k];
    [ToolLine(i)] + hs
  }

  /** One hit line per centre, in stored order. */
  function HitLines(xys: seq<(real, real)>): (ls: seq<string>)
    ensures |ls| == |xys|
    ensures forall k :: 0 <= k < |xys| ==> ls[k] == HitLine(xys[k])
  {
    seq(|xys|, j requires 0 <= j < |xys| => HitLine(xys[j]))
  }

  /** Reads a hit back as its two scaled coordinates. */
  function ParseHit(line: string): Option<(int, int)> {
    if |line| == 0 || line[0] != 'X' then None
    else match ParseInt(line[1..])
      case None => None
      case Some((x, rest)) =>
        if |rest| == 0 || rest[0] != 'Y' then None
        else match ParseInt(rest[1..])
          case None => None
          case Some((y, tail)) => if tail == "" then Some((x, y)) else None
  }

  lemma HitRoundTrip(xy: (real, real))
    ensures ParseHit(HitLine(xy)) == Some((Scale(xy.0), Scale(xy.1)))
  {
    var x, y := Scale(xy.0), Scale(xy.1);
    var rest := "Y" + Number(xy.1);
    FormatIntRoundTrip(y, 3, "");
    assert Number(xy.1) + "" == Number(xy.1);
    assert rest[1..] == Number(xy.1);
    FormatIntRoundTrip(x, 3, rest);
    assert HitLine(xy)[1..] == Number(xy.0) + rest;
  }

  /** The centres drilled with each tool, in tool order. */
  function Centres(tools: seq<real>, holes: Holes): (xss: seq<seq<(real, real)>>)
    requires forall j :: 0 <= j < |tools| ==> tools[j] in holes
    ensures |xss| == |tools|
    ensures forall j :: 0 <= j < |tools| ==> xss[j] == holes[tools[j]]
  {
    seq(|tools|, j requires 0 <= j < |tools| => holes[tools[j]])
  }

  /** The blocks `hits(i, holes[t])` of `p1`, one per tool. */
  function Blocks(xss: seq<seq<(real, real)>>): (bs: seq<seq<string>>)
    ensures |bs| == |xss|
    ensures forall j :: 0 <= j < |xss| ==> bs[j] == Hits(j, xss[j])
  {
    seq(|xss|, j requires 0 <= j < |xss| => Hits(j, xss[j]))
  }

  /** `"".join(...)` over blocks of lines. */
  function Flatten(bs: seq<seq<string>>): seq<string> {
    if bs == [] then [] else bs[0] + Flatten(bs[1..])
  }

  /** The number of lines in a run of blocks. */
  function Size(bs: seq<seq<string>>): nat {
    if bs == [] then 0 else |bs[0]| + Size(bs[1..])
  }

  /** The number of centres in a run of tools. */
  function Total(xss: seq<seq<(real, real)>>): nat {
    if xss == [] then 0 else |xss[0]| + Total(xss[1..])
  }

  /** `p1`: the hits of every tool, in tool order. */
  function HitsSection(tools: seq<real>, holes: Holes): seq<string>
    requires forall j :: 0 <= j < |tools| ==> tools[j] in holes
  {
    Flatten(Blocks(Centres(tools, holes)))
  }

  lemma {:induction false} FlattenSize(bs: seq<seq<string>>)
    ensures |Flatten(bs)| == Size(bs)
  {
    if bs != [] {
      FlattenSize(bs[1..]);
    }
  }

  /** Line `k` of block `j` sits after the lines of the blocks before it. */
  lemma {:induction false} FlattenAt(bs: seq<seq<string>>, j: nat, k: nat)
    requires j < |bs| && k < |bs[j]|
    ensures Size(bs[..j]) + k < |Flatten(bs)|
    ensures Flatten(bs)[Size(bs[..j]) + k] == bs[j][k]
  {
    FlattenSize(bs);
    if j > 0 {
      FlattenAt(bs[1..], j - 1, k);
      assert bs[..j][1..] == bs[1..][..j - 1];
      assert bs[..j][0] == bs[0];
    } else {
      assert bs[..0] == [];
    }
  }

  /** Where the block of tool `j` begins in `p1`: after the lines of the
      tools before it. */
  function Start(xss: seq<seq<(real, real)>>, j: nat): nat
    requires j <= |xss|
  {
    Size(Blocks(xss)[..j])
  }

  /** Blocks of one line more than their centres hold one line per block
      and one per centre. */
  lemma {:induction false} SizeOfBlocks(bs: seq<seq<string>>, xss: seq<seq<(real, real)>>)
    requires |bs| == |xss| && forall j :: 0 <= j < |bs| ==> |bs[j]| == 1 + |xss[j]|
    ensures Size(bs) == |bs| + Total(xss)
  {
    if bs != [] {
      SizeOfBlocks(bs[1..], xss[1..]);
    }
  }

  /** In all, `p1` holds one line per tool and one per hole. */
  lemma HitsCount(xss: seq<seq<(real, real)>>)
    ensures |Flatten(Blocks(xss))| == |xss| + Total(xss)
  {
    var bs := Blocks(xss);
    FlattenSize(bs);
    SizeOfBlocks(bs, xss);
  }

  /** The block of tool `j` opens with its `T` line. */
  lemma ToolLineAt(xss: seq<seq<(real, real)>>, j: nat)
    requires j < |xss|
    ensures Start(xss, j) < |Flatten(Blocks(xss))|
    ensures Flatten(Blocks(xss))[Start(xss, j)] == ToolLine(j)
  {
    var bs := Blocks(xss);
    assert bs[j] == Hits(j, xss[j]);
    FlattenAt(bs, j, 0);
  }

  /** After its `T` line, the block of tool `j` holds one hit line per
      stored centre, in stored order. */
  lemma HitLineAt(xss: seq<seq<(real, real)>>, j: nat, k: nat)
    requires j < |xss| && k < |xss[j]|
    ensures Start(xss, j) + 1 + k < |Flatten(Blocks(xss))|
    ensures Flatten(Blocks(xss))[Start(xss, j) + 1 + k] == HitLine(xss[j][k])
  {
    var bs := Blocks(xss);
    assert bs[j] == Hits(j, xss[j]);
    assert bs[j][k + 1] == HitLine(xss[j][k]);
    FlattenAt(bs, j, k + 1);
  }

  // ---------------------------------------------------------------- the drill file

  const Header: seq<string> := ["M48", "FMAT,2", "ICI,OFF", "METRIC,TZ,000.000"]
  const BodyStart: seq<string> := ["%", "G90", "M71"]

  /** The file around its two variable sections. */
  function Assemble(ds: seq<string>, hs: seq<string>): seq<string> {
    Header + (ds + (BodyStart + (hs + ["M30"])))
  }

  lemma AssembleLayout(ds: seq<string>, hs: seq<string>)
    ensures |Assemble(ds, hs)| == 8 + |ds| + |hs|
    ensures Assemble(ds, hs)[..4] == Header
    ensures Assemble(ds, hs)[4..4 + |ds|] == ds
    ensures Assemble(ds, hs)[4 + |ds|..7 + |ds|] == BodyStart
    ensures Assemble(ds, hs)[7 + |ds|..] == hs + ["M30"]
  {
    var a := Assemble(ds, hs);
    var r1 := ds + (BodyStart + (hs + ["M30"]));
    var r2 := BodyStart + (hs + ["M30"]);
    assert a[4..] == r1;
    assert r1[|ds|..] == r2;
    assert r2[3..] == hs + ["M30"];
  }

  /** The lines of the file `excellon` writes: the header, the tool
      declarations `p0`, the start of the body, the hits `p1`, and the end of
      program. Every line, the last included, ends in a line break. */
  function Program(holes: Holes): seq<string> {
    var tools := Tools(holes);
    Assemble(Decls(tools), HitsSection(tools, holes))
  }

  /** `excellon(f, holes)`: the text written to `f`. */
  function Excellon(holes: Holes): string {
    JoinLines(Program(holes))
  }

  /** The drill file opens with the four header lines, one declaration per
      diameter, then `%`, `G90` and `M71`. */
  lemma ProgramHead(holes: Holes)
    ensures |Program(holes)| == 8 + |holes| + |HitsSection(Tools(holes), holes)|
    ensures Program(holes)[..4] == ["M48", "FMAT,2", "ICI,OFF", "METRIC,TZ,000.000"]
    ensures Program(holes)[4..4 + |holes|] == Decls(Tools(holes))
    ensures Program(holes)[4 + |holes|..7 + |holes|] == ["%", "G90", "M71"]
  {
    var tools := Tools(holes);
    assert |tools| == |holes.Keys|;
    AssembleLayout(Decls(tools), HitsSection(tools, holes));
  }

  /** After `M71` come the hits of each tool in tool order, and the file
      ends with `M30`. */
  lemma ProgramTail(holes: Holes)
    ensures Program(holes)[7 + |holes|..] == HitsSection(Tools(holes), holes) + ["M30"]
  {
    var tools := Tools(holes);
    assert |tools| == |holes.Keys|;
    AssembleLayout(Decls(tools), HitsSection(tools, holes));
  }

  /** In all, the file has eight fixed lines, two lines per diameter (its
      declaration and its `T` line) and one line per hole. */
  lemma ProgramLength(holes: Holes)
    ensures |Program(holes)| == 8 + 2 * |holes| + Total(Centres(Tools(holes), holes))
  {
    var tools := Tools(holes);
    assert |tools| == |holes.Keys|;
    HitsCount(Centres(tools, holes));
    AssembleLayout(Decls(tools), HitsSection(tools, holes));
  }

  lemma DeclNoNewline(i: nat, d: real)
    ensures NoNewline(Decl(i, d))
  {
    var k := if d < 0.0 then -Milli(d) else Milli(d);
    var t := Thousandths(k);
    NoNewlineConcat(".", ZeroPad(NatToString(k % 1000), 3));
    NoNewlineConcat(NatToString(k / 1000), "." + ZeroPad(NatToString(k % 1000), 3));
    NoNewlineConcat("-", t);
    NoNewlineConcat("C", Fixed3(d));
    NoNewlineConcat(NatToString(ToolNumber(i)), "C" + Fixed3(d));
    NoNewlineConcat("T", NatToString(ToolNumber(i)) + ("C" + Fixed3(d)));
  }

  lemma HitLineNoNewline(xy: (real, real))
    ensures NoNewline(HitLine(xy))
  {
    FormatIntNoNewline(Scale(xy.0), 3);
    FormatIntNoNewline(Scale(xy.1), 3);
    NoNewlineConcat("Y", Number(xy.1));
    NoNewlineConcat(Number(xy.0), "Y" + Number(xy.1));
    NoNewlineConcat("X", Number(xy.0) + ("Y" + Number(xy.1)));
  }

  lemma HitsNoNewline(i: nat, xys: seq<(real, real)>)
    ensures forall k :: 0 <= k < |Hits(i, xys)| ==> NoNewline(Hits(i, xys)[k])
  {
    var ls := Hits(i, xys);
    NoNewlineConcat("T", NatToString(ToolNumber(i)));
    forall k | 1 <= k < |ls| ensures NoNewline(ls[k]) {
      HitLineNoNewline(xys[k - 1]);
    }
  }

  lemma {:induction false} FlattenNoNewline(bs: seq<seq<string>>)
    requires forall j, k :: 0 <= j < |bs| && 0 <= k < |bs[j]| ==> NoNewline(bs[j][k])
    ensures forall k :: 0 <= k < |Flatten(bs)| ==> NoNewline(Flatten(bs)[k])
  {
    if bs != [] {
      FlattenNoNewline(bs[1..]);
      var f := Flatten(bs);
      forall k | 0 <= k < |f| ensures NoNewline(f[k]) {
        if k < |bs[0]| {
          assert f[k] == bs[0][k];
        } else {
          assert f[k] == Flatten(bs[1..])[k - |bs[0]|];
        }
      }
    }
  }

  lemma HitsSectionNoNewline(tools: seq<real>, holes: Holes)
    requires forall j :: 0 <= j < |tools| ==> tools[j] in holes
    ensures forall k :: 0 <= k < |HitsSection(tools, holes)| ==> NoNewline(HitsSection(tools, holes)[k])
  {
    var xss := Centres(tools, holes);
    var bs := Blocks(xss);
    forall j, k | 0 <= j < |bs| && 0 <= k < |bs[j]| ensures NoNewline(bs[j][k]) {
      HitsNoNewline(j, xss[j]);
    }
    FlattenNoNewline(bs);
  }

  lemma AssembleNoNewline(ds: seq<string>, hs: seq<string>)
    requires forall k :: 0 <= k < |ds| ==> NoNewline(ds[k])
    requires forall k :: 0 <= k < |hs| ==> NoNewline(hs[k])
    ensures forall k :: 0 <= k < |Assemble(ds, hs)| ==> NoNewline(Assemble(ds, hs)[k])
  {
    var a := Assemble(ds, hs);
    AssembleLayout(ds, hs);
    forall k | 0 <= k < |a| ensures NoNewline(a[k]) {
      if k < 4 {
        assert a[k] == a[..4][k];
      } else if k < 4 + |ds| {
        assert a[k] == a[4..4 + |ds|][k - 4];
      } else if k < 7 + |ds| {
        assert a[k] == a[4 + |ds|..7 + |ds|][k - 4 - |ds|];
      } else if k < 7 + |ds| + |hs| {
        assert a[k] == a[7 + |ds|..][k - 7 - |ds|];
      }
    }
  }

  /** Reading the written file back line by line recovers exactly the
      lines of `Program`: no field contains a line break. */
  lemma ExcellonRoundTrip(holes: Holes)
    ensures SplitLines(Excellon(holes)) == Program(holes)
  {
    var tools := Tools(holes);
    var ds := Decls(tools);
    HitsSectionNoNewline(tools, holes);
    forall i | 0 <= i < |ds| ensures NoNewline(ds[i]) {
      DeclNoNewline(i, tools[i]);
    }
    AssembleNoNewline(ds, HitsSection(tools, holes));
    SplitJoinLines(Program(holes));
  }
}
