/**
 * LocalizedDurationFormatter: a number of seconds broken into days, hours,
 * minutes and seconds, each rounded on its own, and rendered as "1d 2h 3m 4s"
 * with the zero fields left out.
 */
module DurationFormat {
  import opened Wrappers
  import opened Text

  datatype DurationUnit = Days | Hours | Minutes | Seconds

  /** The units the formatter extracts, largest first. */
  const Units: seq<DurationUnit> := [Days, Hours, Minutes, Seconds]

  /** The record `calculate` fills in; its fields are in insertion order. */
  datatype CalculatedResult = CalculatedResult(days: nat, hours: nat, minutes: nat, seconds: nat)

  const Zero := CalculatedResult(0, 0, 0, 0)

  function UnitIndex(u: DurationUnit): nat {
    match u
    case Days => 0
    case Hours => 1
    case Minutes => 2
    case Seconds => 3
  }

  function Field(b: CalculatedResult, u: DurationUnit): nat {
    match u
    case Days => b.days
    case Hours => b.hours
    case Minutes => b.minutes
    case Seconds => b.seconds
  }

  function WithField(b: CalculatedResult, u: DurationUnit, v: nat): CalculatedResult {
    match u
    case Days => b.(days := v)
    case Hours => b.(hours := v)
    case Minutes => b.(minutes := v)
    case Seconds => b.(seconds := v)
  }

  // ---------------------------------------------------------------------------
  // Rounding and the breakdown

  lemma MultiplyAtLeastOneMore(d: nat, a: nat, b: nat)
    requires a >= b + 1
    ensures d * a >= d * b + d
  {
    var k := a - b - 1;
    assert d * a == d * b + d + d * k;
  }

  lemma DivisionUnique(x: nat, d: nat, q: nat, m: nat)
    requires d > 0 && x == d * q + m && m < d
    ensures x / d == q && x % d == m
  {
    var q', m' := x / d, x % d;
    assert x == d * q' + m';
    if q' < q {
      MultiplyAtLeastOneMore(d, q, q');
    } else if q' > q {
      MultiplyAtLeastOneMore(d, q', q);
    }
  }

  /** One if rounding a remainder `m` of a division by `unit` goes up, zero if it goes down. */
  function Carry(m: nat, unit: nat): nat {
    if 2 * m >= unit then 1 else 0
  }

  /**
   * `parseInt((a / b).toFixed(0), 10)` for a non-negative `a` and a positive
   * `b`: the quotient, plus one when the remainder is at least half of `b`.
   */
  function RoundHalfUp(a: nat, b: nat): (r: nat)
    requires b > 0
    ensures r == a / b + Carry(a % b, b)
  {
    var q, m := a / b, a % b;
    assert a == b * q + m;
    var c := Carry(m, b);
    DivisionUnique(2 * a + b, 2 * b, q + c, 2 * m + b - 2 * b * c);
    (2 * a + b) / (2 * b)
  }

  /** The rounded quotient is the integer nearest to a / b, a tie going to the larger one. */
  lemma RoundHalfUpNearest(a: nat, b: nat)
    requires b > 0
    ensures var r := RoundHalfUp(a, b);
            b * (2 * r - 1) <= 2 * a < b * (2 * r + 1)
  {
    var q, m := a / b, a % b;
    var r := RoundHalfUp(a, b);
    assert a == b * q + m;
    assert b * (2 * r - 1) == 2 * b * q + 2 * b * (r - q) - b;
    assert b * (2 * r + 1) == 2 * b * q + 2 * b * (r - q) + b;
  }

  /** What is left after the days, taken modulo an hour, is what is left after the hours. */
  lemma HourRemainder(d: nat)
    ensures (d % 86400) % 3600 == d % 3600
  {
    var q, r := d / 86400, d % 86400;
    var p, s := r / 3600, r % 3600;
    assert d == 3600 * (24 * q + p) + s;
    DivisionUnique(d, 3600, 24 * q + p, s);
  }

  /** What is left after the hours, taken modulo a minute, is what is left after the minutes. */
  lemma MinuteRemainder(d: nat)
    ensures (d % 3600) % 60 == d % 60
  {
    var q, r := d / 3600, d % 3600;
    var p, s := r / 60, r % 60;
    assert d == 60 * (60 * q + p) + s;
    DivisionUnique(d, 60, 60 * q + p, s);
  }

  /**
   * What `calculate` returns, stated on the input alone: each field is the
   * rounded quotient of what the larger units left over (a day is 86400
   * seconds, an hour 3600).
   */
  function Breakdown(d: nat): CalculatedResult {
    CalculatedResult(
      RoundHalfUp(d, 86400),
      RoundHalfUp(d % 86400, 3600),
      RoundHalfUp(d % 3600, 60),
      d % 60)
  }

  /**
   * Each field is the whole number of its unit left over by the larger units,
   * plus one when the part left over is at least half a unit. So hours reach
   * 24 and minutes 60 at most, and seconds stay below 60.
   */
  lemma BreakdownFields(d: nat)
    ensures var b := Breakdown(d);
            && b.days == d / 86400 + Carry(d % 86400, 86400)
            && b.hours == (d % 86400) / 3600 + Carry(d % 3600, 3600)
            && b.minutes == (d % 3600) / 60 + Carry(d % 60, 60)
            && b.seconds == d % 60
            && b.hours <= 24 && b.minutes <= 60 && b.seconds < 60
  {
    HourRemainder(d);
    MinuteRemainder(d);
  }

  /**
   * `calculate`: the running remainder walks through days, hours, minutes and
   * seconds; each field is the rounded quotient, the next remainder is taken
   * from the unrounded one.
   */
  method Calculate(durationSeconds: nat) returns (result: CalculatedResult)
    ensures result == Breakdown(durationSeconds)
    ensures result.hours <= 24 && result.minutes <= 60 && result.seconds < 60
  {
    var remainingDuration := durationSeconds;
    result := CalculatedResult(0, 0, 0, 0);

    if Days in Units {
      var days := RoundHalfUp(remainingDuration, 24 * 60 * 60);
      remainingDuration := remainingDuration % (24 * 60 * 60);
      result := result.(days := days);
    }
    assert remainingDuration == durationSeconds % 86400 < 86400;

    if Hours in Units {
      var hours := RoundHalfUp(remainingDuration, 60 * 60);
      remainingDuration := remainingDuration % (60 * 60);
      result := result.(hours := hours);
    }
    HourRemainder(durationSeconds);
    assert remainingDuration == durationSeconds % 3600 < 3600;

    if Minutes in Units {
      var minutes := RoundHalfUp(remainingDuration, 60);
      remainingDuration := remainingDuration % 60;
      result := result.(minutes := minutes);
    }
    MinuteRemainder(durationSeconds);
    assert remainingDuration == durationSeconds % 60 < 60;

    if Seconds in Units {
      var seconds := RoundHalfUp(remainingDuration, 1);
      result := result.(seconds := seconds);
    }
    BreakdownFields(durationSeconds);
  }

  function Total(b: CalculatedResult): nat {
    b.days * 86400 + b.hours * 3600 + b.minutes * 60 + b.seconds
  }

  /**
   * The fields add back up to the input plus one unit for every step that
   * rounded up: the breakdown never falls short of the input, and meets it
   * exactly when no step rounded up.
   */
  lemma BreakdownTotal(d: nat)
    ensures Total(Breakdown(d)) == d + 86400 * Carry(d % 86400, 86400)
                                     + 3600 * Carry(d % 3600, 3600)
                                     + 60 * Carry(d % 60, 60)
    ensures Total(Breakdown(d)) >= d
    ensures Total(Breakdown(d)) == d <==>
              2 * (d % 86400) < 86400 && 2 * (d % 3600) < 3600
              && 2 * (d % 60) < 60
  {
    BreakdownFields(d);
    var b := Breakdown(d);
    var r1, r2, r3 := d % 86400, d % 3600, d % 60;
    var c1, c2, c3 := Carry(r1, 86400), Carry(r2, 3600), Carry(r3, 60);
    HourRemainder(d);
    MinuteRemainder(d);
    var q1, q2, q3 := d / 86400, r1 / 3600, r2 / 60;
    assert d == 86400 * q1 + r1;
    assert r1 == 3600 * q2 + r2;
    assert r2 == 60 * q3 + r3;
    assert b == CalculatedResult(q1 + c1, q2 + c2, q3 + c3, r3);
    assert Total(b) == 86400 * (q1 + c1) + 3600 * (q2 + c2) + 60 * (q3 + c3) + r3;
  }

  /** Every positive duration has a positive field; only 0 breaks down to all zeros. */
  lemma BreakdownZero(d: nat)
    ensures Breakdown(d) == Zero <==> d == 0
  {
    if d == 0 {
      assert Breakdown(0) == CalculatedResult(0, 0, 0, 0);
    } else {
      BreakdownTotal(d);
      var b := Breakdown(d);
      assert b.days > 0 || b.hours > 0 || b.minutes > 0 || b.seconds > 0 by {
        assert 0 < d <= Total(b);
      }
    }
  }

  /** Days are not capped: a whole number of days reports that number. */
  lemma WholeDays(n: nat)
    ensures Breakdown(n * 86400) == CalculatedResult(n, 0, 0, 0)
  {
    DivisionUnique(n * 86400, 86400, n, 0);
    assert (n * 86400) % 3600 == 0 by {
      DivisionUnique(n * 86400, 3600, n * 24, 0);
    }
    assert (n * 86400) % 60 == 0 by {
      DivisionUnique(n * 86400, 60, n * 1440, 0);
    }
  }

  // ---------------------------------------------------------------------------
  // Rendering

  /** `getUnitString` in the short style, the only one in use: a single-letter suffix. */
  function UnitString(unit: DurationUnit, value: nat): (s: string)
    ensures |s| == 1 && !IsDigit(s[0]) && s[0] != ' '
    ensures SuffixUnit(s[0]) == Some(unit)
  {
    match unit
    case Seconds => "s"
    case Minutes => "m"
    case Hours => "h"
    case Days => "d"
  }

  /** The unit a short suffix stands for. */
  function SuffixUnit(c: char): Option<DurationUnit> {
    match c
    case 'd' => Some(Days)
    case 'h' => Some(Hours)
    case 'm' => Some(Minutes)
    case 's' => Some(Seconds)
    case _ => None
  }

  datatype Entry = Entry(unit: DurationUnit, value: nat)

  /** `Object.entries(durationRecord)`: the fields as (unit, value) pairs, in insertion order. */
  function Entries(b: CalculatedResult): (es: seq<Entry>)
    ensures |es| == |Units|
    ensures forall i :: 0 <= i < |Units| ==> es[i] == Entry(Units[i], Field(b, Units[i]))
  {
    [Entry(Days, b.days), Entry(Hours, b.hours), Entry(Minutes, b.minutes), Entry(Seconds, b.seconds)]
  }

  /** `.filter((it) => it[1] > 0)`: the entries with a positive value, order kept. */
  function Positive(es: seq<Entry>): (kept: seq<Entry>)
    ensures |kept| <= |es|
    decreases |es|
  {
    if es == [] then []
    else if es[0].value > 0 then [es[0]] + Positive(es[1..])
    else Positive(es[1..])
  }

  /** The filter keeps exactly the entries with a positive value. */
  lemma {:induction false} PositiveKeeps(es: seq<Entry>)
    ensures forall e :: e in Positive(es) <==> e in es && e.value > 0
    decreases |es|
  {
    if es != [] {
      PositiveKeeps(es[1..]);
      assert es == [es[0]] + es[1..];
    }
  }

  /** `${it[1]}${getUnitString(...)}`: the value in decimal followed by its suffix. */
  function Piece(e: Entry): (p: string)
    ensures |p| >= 2
    ensures ' ' !in p
  {
    NatToString(e.value) + UnitString(e.unit, e.value)
  }

  function Pieces(es: seq<Entry>): (ps: seq<string>)
    ensures |ps| == |es|
    decreases |es|
  {
    if es == [] then [] else [Piece(es[0])] + Pieces(es[1..])
  }

  /** The rendered pieces correspond one to one, in order, with the entries. */
  lemma {:induction false} PiecesAt(es: seq<Entry>)
    ensures forall i :: 0 <= i < |es| ==> Pieces(es)[i] == Piece(es[i])
    decreases |es|
  {
    if es != [] {
      PiecesAt(es[1..]);
    }
  }

  /**
   * The pure pipeline of `format`: filter, render each entry, join with one
   * space. The output is empty exactly when every field is 0: there is no
   * "0s" fallback.
   */
  function Render(b: CalculatedResult): (r: string)
    ensures r == "" <==> b == Zero
  {
    var es := Positive(Entries(b));
    PiecesAt(es);
    PositiveKeeps(Entries(b));
    assert b != Zero ==> Entries(b)[0].value > 0 || Entries(b)[1].value > 0
                         || Entries(b)[2].value > 0 || Entries(b)[3].value > 0;
    Join(Pieces(es), ' ')
  }

  /**
   * `format`: the breakdown of the input, rendered; empty exactly when the
   * input is 0, and always readable back into the breakdown.
   */
  method Format(input: nat) returns (s: string)
    ensures s == Render(Breakdown(input))
    ensures Parse(s) == Some(Breakdown(input))
    ensures s == "" <==> input == 0
  {
    var durationRecord := Calculate(input);
    s := Render(durationRecord);
    RenderParse(durationRecord);
    BreakdownZero(input);
  }

  // ---------------------------------------------------------------------------
  // Reading a rendered duration back

  /** One piece "<digits><suffix>" read back as an entry. */
  function ParsePiece(p: string): Option<Entry> {
    if |p| >= 2 && AllDigits(p[..|p| - 1]) then
      match SuffixUnit(p[|p| - 1])
      case Some(u) => Some(Entry(u, DigitsValue(p[..|p| - 1])))
      case None => None
    else None
  }

  function ParsePieces(ps: seq<string>): Option<seq<Entry>>
    decreases |ps|
  {
    if ps == [] then Some([])
    else
      match (ParsePiece(ps[0]), ParsePieces(ps[1..]))
      case (Some(e), Some(es)) => Some([e] + es)
      case _ => None
  }

  /**
   * Entries back into a record: values must be positive and units strictly
   * in the order days, hours, minutes, seconds, starting at index `from`.
   */
  function Assemble(es: seq<Entry>, from: nat): Option<CalculatedResult>
    decreases |es|
  {
    if es == [] then Some(Zero)
    else if UnitIndex(es[0].unit) < from || es[0].value == 0 then None
    else
      match Assemble(es[1..], UnitIndex(es[0].unit) + 1)
      case Some(b) => Some(WithField(b, es[0].unit, es[0].value))
      case None => None
  }

  /** The inverse of Render: a duration string as the fields it shows, absent fields being 0. */
  function Parse(s: string): Option<CalculatedResult> {
    if s == [] then Some(Zero)
    else
      match ParsePieces(Split(s, ' '))
      case Some(es) => Assemble(es, 0)
      case None => None
  }

  /** A piece reads back as its entry: the digits give the value and the suffix the unit. */
  lemma ParsePieceOfPiece(e: Entry)
    ensures ParsePiece(Piece(e)) == Some(e)
  {
    var p := Piece(e);
    assert p[..|p| - 1] == NatToString(e.value);
    DigitsValueOfNatToString(e.value);
  }

  lemma {:induction false} ParsePiecesOfPieces(es: seq<Entry>)
    ensures ParsePieces(Pieces(es)) == Some(es)
    decreases |es|
  {
    if es != [] {
      ParsePieceOfPiece(es[0]);
      ParsePiecesOfPieces(es[1..]);
      assert Pieces(es)[1..] == Pieces(es[1..]);
      assert [es[0]] + es[1..] == es;
    }
  }

  /** The record with the fields before unit index `k` cleared. */
  function Below(b: CalculatedResult, k: nat): CalculatedResult {
    CalculatedResult(
      if k <= 0 then b.days else 0,
      if k <= 1 then b.hours else 0,
      if k <= 2 then b.minutes else 0,
      if k <= 3 then b.seconds else 0)
  }

  lemma {:induction false} AssembleTail(b: CalculatedResult, k: nat, from: nat)
    requires from <= k <= 4
    ensures Assemble(Positive(Entries(b)[k..]), from) == Some(Below(b, k))
    decreases 4 - k
  {
    var es := Entries(b)[k..];
    if k < 4 {
      var e := Entries(b)[k];
      assert es == [e] + Entries(b)[k + 1..];
      assert e.unit == Units[k] && UnitIndex(e.unit) == k;
      assert e.value == Field(b, e.unit);
      if e.value > 0 {
        assert Positive(es) == [e] + Positive(Entries(b)[k + 1..]);
        AssembleTail(b, k + 1, k + 1);
        assert WithField(Below(b, k + 1), e.unit, e.value) == Below(b, k);
      } else {
        assert Positive(es) == Positive(Entries(b)[k + 1..]);
        AssembleTail(b, k + 1, from);
        assert Below(b, k + 1) == Below(b, k);
      }
    }
  }

  lemma AssemblePositive(b: CalculatedResult)
    ensures Assemble(Positive(Entries(b)), 0) == Some(b)
  {
    AssembleTail(b, 0, 0);
    assert Entries(b)[0..] == Entries(b);
  }

  /** Render loses nothing: parsing its output gives back the record. */
  lemma RenderParse(b: CalculatedResult)
    ensures Parse(Render(b)) == Some(b)
  {
    var es := Positive(Entries(b));
    var ps := Pieces(es);
    PiecesAt(es);
    AssemblePositive(b);
    if ps != [] {
      SplitJoin(ps, ' ');
      ParsePiecesOfPieces(es);
    }
  }
}
