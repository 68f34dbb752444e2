/**
 * The stroke "slice" of the SVG constructs: the setter turns one or two ends
 * (lengths, or percentages of the stroke's total length) into a
 * `stroke-dasharray` and a `stroke-dashoffset`; the getter reads the two ends
 * back from them. The same setter and getter appear in `SVGConstruct`,
 * `star` and `ellps`; each construct calls the functions here.
 *
 * Numbers are exact reals. `mkr.fix` is taken as the identity, and each
 * token arrives already parsed by `mkr.unitless` into a number and a percent
 * flag.
 */
module Slices {
  import opened JsBase

  /** One token of the slice text: a length, or a percentage of the stroke length. */
  datatype End = Len(v: real) | Pct(p: real)

  /** What the setter writes: `stroke-dashoffset` and the two lengths of `stroke-dasharray`. */
  datatype Dash = Dash(offset: real, segment: real, gap: real)

  /** The element's dash style: none yet (`stroke-dasharray: none`) or one the setter wrote. */
  datatype Stroke = NoDash | Dashed(dash: Dash)

  /** The `_startUnit` and `_endUnit` flags: whether each end reads back as a percentage. */
  datatype Units = Units(start: bool, end: bool)

  /** One end as the getter prints it: a number, a percentage, or a non-finite number (`NaN`, `Infinity%`). */
  datatype Shown = Plain(v: real) | Percent(p: real) | NotFinite

  function Min(a: real, b: real): real { if a <= b then a else b }
  function Max(a: real, b: real): real { if a <= b then b else a }
  function Abs(x: real): real { if x < 0.0 then -x else x }

  /** The length a token stands for: `len * (unitless(token) / 100)` for a percentage. */
  function Resolve(len: real, e: End): real {
    match e
    case Len(v) => v
    case Pct(p) => len * (p / 100.0)
  }

  /**
   * The dash for the ends `start` and `end` on a stroke of length `len`: from
   * the smaller end `p0` to the larger `p1`. A slice from 0 uses a segment of
   * `len + 1`, shifted so that `p1` is drawn (no shift once `p1` reaches the
   * length); any other slice uses a segment of `p1 - p0` shifted back by `p0`.
   * The gap is always `len + 11`.
   */
  function DashFor(len: real, start: real, end: real): Dash {
    var p0, p1 := Min(start, end), Max(start, end);
    if p0 == 0.0 then Dash(if p1 >= len then 0.0 else len + 1.0 - p1, len + 1.0, len + 11.0)
    else Dash(-p0, Abs(p1 - p0), len + 11.0)
  }

  /** The outcome of the setter: the new unit flags and the dash it writes. */
  datatype Sliced = Sliced(units: Units, dash: Dash)

  /**
   * The setter on the tokens of `value.split(' ')`: nothing for no token; one
   * token is the end, with the start 0 (a number, so `_startUnit` keeps its
   * value); otherwise the first two tokens are the start and the end. Each
   * token given as text sets its flag exactly when it is a percentage.
   */
  function SetSlice(len: real, units: Units, tokens: seq<End>): Option<Sliced> {
    if tokens == [] then None
    else if |tokens| == 1 then
      Some(Sliced(Units(units.start, tokens[0].Pct?), DashFor(len, 0.0, Resolve(len, tokens[0]))))
    else
      Some(Sliced(Units(tokens[0].Pct?, tokens[1].Pct?), DashFor(len, Resolve(len, tokens[0]), Resolve(len, tokens[1]))))
  }

  /**
   * The ends the getter reads from a dash: a negative offset is a start of
   * `-offset` and an end of `segment - offset`; otherwise the start is 0 and
   * the end `|segment - offset|`.
   */
  function Ends(d: Dash): (real, real) {
    if d.offset < 0.0 then (-d.offset, d.segment - d.offset)
    else (0.0, Abs(d.segment - d.offset))
  }

  /** How the getter prints an end: `fix(x / len) * 100 + '%'` when its flag is set. */
  function Show(x: real, len: real, unit: bool): Shown {
    if !unit then Plain(x)
    else if len == 0.0 then NotFinite
    else Percent(x / len * 100.0)
  }

  /**
   * The getter: `'0 100%'` when no dash has been set, otherwise both ends,
   * each printed by its flag.
   */
  function GetSlice(len: real, units: Units, stroke: Stroke): (Shown, Shown) {
    match stroke
    case NoDash => (Plain(0.0), Percent(100.0))
    case Dashed(d) =>
      var ends := Ends(d);
      (Show(ends.0, len, units.start), Show(ends.1, len, units.end))
  }

  /** How a token is expected to read back: as written. */
  function Echo(e: End): Shown {
    match e
    case Len(v) => Plain(v)
    case Pct(p) => Percent(p)
  }

  // ---------------------------------------------------------------------------
  // Properties

  /** The dash does not depend on the order of the two ends. */
  lemma DashIgnoresOrder(len: real, a: real, b: real)
    ensures DashFor(len, a, b) == DashFor(len, b, a)
  {
    assert Min(a, b) == Min(b, a) && Max(a, b) == Max(b, a);
  }

  /**
   * Reading a dash back recovers the two ends, smaller first, whenever the
   * slice does not start at 0 or stops short of the full length.
   */
  lemma EndsRecovered(len: real, a: real, b: real)
    requires 0.0 <= Min(a, b) && (Min(a, b) > 0.0 || Max(a, b) < len)
    ensures Ends(DashFor(len, a, b)) == (Min(a, b), Max(a, b))
  {
    var p0, p1 := Min(a, b), Max(a, b);
    if p0 == 0.0 {
      assert DashFor(len, a, b) == Dash(len + 1.0 - p1, len + 1.0, len + 11.0);
    } else {
      assert DashFor(len, a, b) == Dash(-p0, p1 - p0, len + 11.0);
    }
  }

  /** A full slice from 0 reads back one unit long: its end is `len + 1`. */
  lemma FullSliceReadsLong(len: real, p1: real)
    requires 0.0 <= len <= p1
    ensures Ends(DashFor(len, 0.0, p1)) == (0.0, len + 1.0)
  {
    assert DashFor(len, 0.0, p1) == Dash(0.0, len + 1.0, len + 11.0);
  }

  /** On a stroke with a length, a percentage reads back as the percentage that was set. */
  lemma PercentRecovered(len: real, p: real)
    requires len != 0.0
    ensures Show(Resolve(len, Pct(p)), len, true) == Percent(p)
  {
    calc {
      len * (p / 100.0) / len * 100.0;
    ==
      p * (len / len);
    ==
      p;
    }
  }

  /**
   * Setting two ordered ends and reading the slice back prints the two tokens
   * as they were given, on a stroke with a length, whenever the slice does not
   * start at 0 or stops short of the full length.
   */
  lemma SliceRoundTrip(len: real, units: Units, a: End, b: End)
    requires len > 0.0
    requires 0.0 <= Resolve(len, a) <= Resolve(len, b)
    requires Resolve(len, a) > 0.0 || Resolve(len, b) < len
    ensures var s := SetSlice(len, units, [a, b]);
      s.Some? && GetSlice(len, s.value.units, Dashed(s.value.dash)) == (Echo(a), Echo(b))
  {
    EndsRecovered(len, Resolve(len, a), Resolve(len, b));
    if a.Pct? {
      PercentRecovered(len, a.p);
    }
    if b.Pct? {
      PercentRecovered(len, b.p);
    }
  }

  /**
   * A single token is the end: it reads back as given when it is short of the
   * full length, and the start reads as 0, printed by the flag the setter kept.
   */
  lemma SingleTokenRoundTrip(len: real, units: Units, e: End)
    requires len > 0.0 && 0.0 <= Resolve(len, e) < len
    ensures var s := SetSlice(len, units, [e]);
      && s.Some? && s.value.units.start == units.start
      && GetSlice(len, s.value.units, Dashed(s.value.dash)) == (Show(0.0, len, units.start), Echo(e))
  {
    EndsRecovered(len, 0.0, Resolve(len, e));
    if e.Pct? {
      PercentRecovered(len, e.p);
    }
  }

  /** The setter's gap is always `len + 11`, and an empty token list writes nothing. */
  lemma GapIsFixed(len: real, units: Units, tokens: seq<End>)
    ensures var s := SetSlice(len, units, tokens);
      (s.None? <==> tokens == []) && (s.Some? ==> s.value.dash.gap == len + 11.0)
  {
  }

  // ---------------------------------------------------------------------------
  // The getter as written

  /**
   * The no-dash test of the getter as written: `offset === 0` compares the
   * text `mkr.unitless` returns with the number 0.
   */
  predicate NoDashTestAsWritten(offsetText: string, segmentIsNaN: bool) {
    StrictEquals(PStr(offsetText), PNum(0.0)) && segmentIsNaN
  }

  /** The no-dash test never passes: a string is never strictly equal to a number. */
  lemma NoDashTestNeverPasses(offsetText: string, segmentIsNaN: bool)
    ensures !NoDashTestAsWritten(offsetText, segmentIsNaN)
  {
  }

  /**
   * The getter's no-dash test as written: with no dash the test above fails,
   * and the end is computed from the text `none`, which is not a number. With
   * a dash it reads as `GetSlice`; the text concatenation of the end is shown
   * apart, by `EndTextAsWritten`.
   */
  function GetSliceAsWritten(len: real, units: Units, stroke: Stroke): (Shown, Shown) {
    match stroke
    case NoDash =>
      assert !NoDashTestAsWritten("0", true) by {
        NoDashTestNeverPasses("0", true);
      }
      (Show(0.0, len, units.start), NotFinite)
    case Dashed(d) => GetSlice(len, units, Dashed(d))
  }

  /** Before any slice is set, the getter as written prints `0 NaN`, not `0 100%`. */
  lemma NoDashReadsNaN(len: real)
    ensures GetSliceAsWritten(len, Units(false, false), NoDash) == (Plain(0.0), NotFinite)
    ensures GetSlice(len, Units(false, false), NoDash) == (Plain(0.0), Percent(100.0))
  {
  }

  /**
   * `end = da0 + start` as written, for whole numbers: `da0` is the text
   * `mkr.unitless` returns, so `+` appends the digits of `start` to it.
   */
  function EndTextAsWritten(da0: nat, start: nat): string {
    Decimal(da0) + Decimal(start)
  }

  /**
   * The slice `10 40` on a stroke of length 100 writes an offset of -10 and a
   * segment of 30; the getter should read the end 40, but as written it
   * prints `3010`.
   */
  lemma ConcatenatedEnd()
    ensures DashFor(100.0, 10.0, 40.0) == Dash(-10.0, 30.0, 111.0)
    ensures Ends(DashFor(100.0, 10.0, 40.0)) == (10.0, 40.0)
    ensures EndTextAsWritten(30, 10) == "3010" != Decimal(40)
  {
    assert Decimal(3) == "3" && Decimal(1) == "1" && Decimal(4) == "4" && Decimal(0) == "0";
    assert Decimal(30) == "30" && Decimal(10) == "10" && Decimal(40) == "40";
  }
}
