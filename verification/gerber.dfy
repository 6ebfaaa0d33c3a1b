/** The Gerber RS-274X writer of gerber.py. The file handle is modelled by
    the lines written to it: every operation returns the lines it writes, and
    the file's text is their `JoinLines`. Coordinates are millimetres,
    written in the 3.4 fixed-point format the preamble declares
    (`%FSLAX34Y34*%`), so a coordinate is stored as `round(n * 10000)`. */
module GerberOut {
  import opened Results
  import opened Text
  import opened Angles

  /** The lines of the fixed preamble, the description substituted into the
      `%IN...*%` line; the text ends in an empty line. */
  function Preamble(desc: string): seq<string> {
    [ "G04 Excamera Labs Gerber RS-274X export*",
      "G75*",
      "%MOMM*%",
      "%FSLAX34Y34*%",
      "%LPD*%",
      "%IN" + desc + "*%",
      "%IPPOS*%",
      "%AMOC8*",
      "5,1,8,0,0,1.08239X$1,22.5*%",
      "G01*",
      "%ADD10C,0.254000*%",
      "" ]
  }

  /** Reads the description back out of a preamble's `%IN...*%` line. */
  function Description(lines: seq<string>): Option<string> {
    if |lines| > 5 && |lines[5]| >= 5 && lines[5][..3] == "%IN" && lines[5][|lines[5]| - 2..] == "*%"
    then Some(lines[5][3..|lines[5]| - 2])
    else None
  }

  lemma InLineClean(desc: string)
    requires NoNewline(desc)
    ensures NoNewline("%IN" + desc + "*%")
  {
    var inLine := "%IN" + desc + "*%";
    forall i | 3 <= i < 3 + |desc| ensures inLine[i] != '\n' {
      assert inLine[i] == desc[i - 3];
    }
  }

  /** A description without line breaks survives the round trip through the
      written text: the text splits into the twelve preamble lines and the
      description is read back from the `%IN` line. */
  lemma PreambleRoundTrip(desc: string)
    requires NoNewline(desc)
    ensures |SplitLines(JoinLines(Preamble(desc)))| == 12
    ensures Description(SplitLines(JoinLines(Preamble(desc)))) == Some(desc)
  {
    var ls := Preamble(desc);
    PreambleClean(desc);
    SplitJoinLines(ls);
    DescriptionOf(desc);
  }

  lemma PreambleClean(desc: string)
    requires NoNewline(desc)
    ensures forall k :: 0 <= k < |Preamble(desc)| ==> NoNewline(Preamble(desc)[k])
  {
    InLineClean(desc);
  }

  lemma DescriptionOf(desc: string)
    ensures Description(Preamble(desc)) == Some(desc)
  {
    var inLine := "%IN" + desc + "*%";
    assert Preamble(desc)[5] == inLine;
    assert inLine[..3] == "%IN" && inLine[|inLine| - 2..] == "*%";
    assert inLine[3..|inLine| - 2] == desc;
  }

  // ---------------------------------------------------------------- coordinates

  /** `int(round(n * 10000))`: a coordinate in units of 0.1 micrometre. */
  function Scale(n: real): (k: int)
    ensures n * 10000.0 - 0.5 <= k as real <= n * 10000.0 + 0.5
  {
    RoundHalfEven(n * 10000.0)
  }

  /** `number(n)`: the scaled coordinate as `"%07d"`. */
  function Number(n: real): (s: string)
    ensures |s| >= 7
    ensures ParseInt(s) == Some((Scale(n), ""))
  {
    var s := FormatInt(Scale(n), 7);
    FormatIntRoundTrip(Scale(n), 7, "");
    assert s + "" == s;
    s
  }

  /** One line of `points`: `X<x>Y<y>` followed by the draw code. */
  function PointLine(p: (real, real), d: string): string {
    "X" + (Number(p.0) + ("Y" + (Number(p.1) + (d + "*"))))
  }

  /** What a reader of a point line recovers: the two scaled coordinates and
      the draw code (`D02` moves without drawing, `D01` draws). */
  datatype Stroke = Stroke(x: int, y: int, code: string)

  /** Reads back a point line. */
  function ParsePoint(line: string): Option<Stroke> {
    if |line| == 0 || line[0] != 'X' then None
    else match ParseInt(line[1..])
      case None => None
      case Some((x, rest)) => ParseY(x, rest)
  }

  /** The part of a point line after its `x` coordinate. */
  function ParseY(x: int, rest: string): Option<Stroke> {
    if |rest| == 0 || rest[0] != 'Y' then None
    else match ParseInt(rest[1..])
      case None => None
      case Some((y, tail)) => ParseCode(x, y, tail)
  }

  /** The draw code and the closing `*` of a point line. */
  function ParseCode(x: int, y: int, tail: string): Option<Stroke> {
    if |tail| == 0 || tail[|tail| - 1] != '*' then None
    else Some(Stroke(x, y, tail[..|tail| - 1]))
  }

  lemma ParseCodeOf(x: int, y: int, d: string)
    ensures ParseCode(x, y, d + "*") == Some(Stroke(x, y, d))
  {
    assert (d + "*")[..|d|] == d;
  }

  lemma ParseYOf(x: int, y: int, t: string, tail: string)
    requires ParseInt(t) == Some((y, tail))
    ensures ParseY(x, "Y" + t) == ParseCode(x, y, tail)
  {
    assert ("Y" + t)[1..] == t;
  }

  lemma ParsePointOf(x: int, t: string, rest: string)
    requires ParseInt(t) == Some((x, rest))
    ensures ParsePoint("X" + t) == ParseY(x, rest)
  {
    assert ("X" + t)[1..] == t;
  }

  /** A point line reads back as the scaled point and its draw code. */
  lemma PointLineRoundTrip(p: (real, real), d: string)
    requires StartsWithNonDigit(d)
    ensures ParsePoint(PointLine(p, d)) == Some(Stroke(Scale(p.0), Scale(p.1), d))
  {
    var x, y := Scale(p.0), Scale(p.1);
    var tail := d + "*";
    var rest := "Y" + (Number(p.1) + tail);
    assert StartsWithNonDigit(tail);
    FormatIntRoundTrip(y, 7, tail);
    ParseCodeOf(x, y, d);
    ParseYOf(x, y, Number(p.1) + tail, tail);
    FormatIntRoundTrip(x, 7, rest);
    ParsePointOf(x, Number(p.0) + rest, rest);
  }

  /** The draw code of the `i`-th point of a `points` call. */
  function Code(i: nat): string {
    if i == 0 then "D02" else "D01"
  }

  /** `points(pp)`: the loop writes one line per point, switching `d` from
      `D02` to `D01` after the first. */
  function Points(pp: seq<(real, real)>): (ls: seq<string>)
    ensures |ls| == |pp|
  {
    seq(|pp|, i requires 0 <= i < |pp| => PointLine(pp[i], Code(i)))
  }

  /** `points` writes one line per point, in order, each reading back as
      the scaled point, the first with `D02` and every later one with `D01`. */
  lemma PointsRoundTrip(pp: seq<(real, real)>)
    ensures |Points(pp)| == |pp|
    ensures forall i :: 0 <= i < |pp| ==>
      ParsePoint(Points(pp)[i]) == Some(Stroke(Scale(pp[i].0), Scale(pp[i].1), Code(i)))
  {
    forall i | 0 <= i < |pp|
      ensures ParsePoint(Points(pp)[i]) == Some(Stroke(Scale(pp[i].0), Scale(pp[i].1), Code(i)))
    {
      PointLineRoundTrip(pp[i], Code(i));
    }
  }

  // ---------------------------------------------------------------- drawing operations

  /** `rect(x0, y0, x1, y1)`. */
  function Rect(x0: real, y0: real, x1: real, y1: real): seq<string> {
    ["D10*"] + Points([(x0, y0), (x1, y0), (x1, y1), (x0, y1), (x0, y0)])
  }

  /** `rect` selects aperture 10 and traces the four corners in order,
      returning to the first: a closed outline drawn after one move. */
  lemma RectClosed(x0: real, y0: real, x1: real, y1: real)
    ensures |Rect(x0, y0, x1, y1)| == 6 && Rect(x0, y0, x1, y1)[0] == "D10*"
    ensures ParsePoint(Rect(x0, y0, x1, y1)[1]) == Some(Stroke(Scale(x0), Scale(y0), "D02"))
    ensures ParsePoint(Rect(x0, y0, x1, y1)[2]) == Some(Stroke(Scale(x1), Scale(y0), "D01"))
    ensures ParsePoint(Rect(x0, y0, x1, y1)[3]) == Some(Stroke(Scale(x1), Scale(y1), "D01"))
    ensures ParsePoint(Rect(x0, y0, x1, y1)[4]) == Some(Stroke(Scale(x0), Scale(y1), "D01"))
    ensures ParsePoint(Rect(x0, y0, x1, y1)[5]) == Some(Stroke(Scale(x0), Scale(y0), "D01"))
  {
    var pp := [(x0, y0), (x1, y0), (x1, y1), (x0, y1), (x0, y0)];
    PointsRoundTrip(pp);
    var r := Rect(x0, y0, x1, y1);
    assert r[1..] == Points(pp);
    assert r[1] == Points(pp)[0] && r[2] == Points(pp)[1] && r[3] == Points(pp)[2];
    assert r[4] == Points(pp)[3] && r[5] == Points(pp)[4];
  }

  /** `linestring(pp)`. */
  function LineString(pp: seq<(real, real)>): seq<string> {
    ["D10*"] + Points(pp)
  }

  /** `linestring` selects aperture 10 and writes the points in order. */
  lemma LineStringRoundTrip(pp: seq<(real, real)>)
    ensures |LineString(pp)| == |pp| + 1 && LineString(pp)[0] == "D10*"
    ensures forall i :: 0 <= i < |pp| ==>
      ParsePoint(LineString(pp)[i + 1]) == Some(Stroke(Scale(pp[i].0), Scale(pp[i].1), Code(i)))
  {
    var ps := Points(pp);
    PointsRoundTrip(pp);
    assert LineString(pp) == ["D10*"] + ps;
    assert forall i :: 0 <= i < |pp| ==> LineString(pp)[i + 1] == ps[i];
  }

  /** `poly(pp)`. */
  function Poly(pp: seq<(real, real)>): seq<string> {
    ["G36*"] + Points(pp) + ["G37*", ""]
  }

  /** `poly` brackets the point lines in a region (`G36*` ... `G37*`)
      followed by a blank line. */
  lemma PolyRoundTrip(pp: seq<(real, real)>)
    ensures |Poly(pp)| == |pp| + 3
    ensures Poly(pp)[0] == "G36*" && Poly(pp)[|pp| + 1] == "G37*" && Poly(pp)[|pp| + 2] == ""
    ensures forall i :: 0 <= i < |pp| ==>
      ParsePoint(Poly(pp)[i + 1]) == Some(Stroke(Scale(pp[i].0), Scale(pp[i].1), Code(i)))
  {
    PointsRoundTrip(pp);
    Bracketed("G36*", Points(pp), ["G37*", ""]);
  }

  /** Where the lines of a block land between an opening line and a tail. */
  lemma Bracketed(head: string, ls: seq<string>, tail: seq<string>)
    ensures |[head] + ls + tail| == |ls| + 1 + |tail| && ([head] + ls + tail)[0] == head
    ensures forall i :: 0 <= i < |ls| ==> ([head] + ls + tail)[i + 1] == ls[i]
    ensures forall j :: 0 <= j < |tail| ==> ([head] + ls + tail)[|ls| + 1 + j] == tail[j]
  {
  }

  /** `finish()`: the text written is the end-of-program line `M02*`, and
      it splits back into that one line. */
  function Finish(): (ls: seq<string>)
    ensures JoinLines(ls) == "M02*\n"
    ensures SplitLines(JoinLines(ls)) == ls
  {
    var ls := ["M02*"];
    SplitJoinLines(ls);
    ls
  }
}
