/** Sample inputs worked through the duration model. */
module DurationSamples {
  import opened Text
  import opened DurationFormat

  /** 90 seconds is 1.5 minutes, which rounds up: the minutes show 2. */
  lemma NinetySeconds()
    ensures Breakdown(90) == CalculatedResult(0, 0, 2, 30)
    ensures Render(CalculatedResult(0, 0, 2, 30)) == "2m 30s"
  {
    BreakdownFields(90);
    assert 90 / 86400 == 0 && 90 % 86400 == 90 && 90 / 3600 == 0;
    assert 90 % 3600 == 90 && 90 / 60 == 1 && 90 % 60 == 30;
    RenderTwoMinutesThirty();
  }

  lemma RenderTwoMinutesThirty()
    ensures Render(CalculatedResult(0, 0, 2, 30)) == "2m 30s"
  {
    KeptEntries(CalculatedResult(0, 0, 2, 30));
    PieceOf(Entry(Minutes, 2), "2");
    PieceOf(Entry(Seconds, 30), "30");
    RenderTwo(Entry(Minutes, 2), Entry(Seconds, 30));
  }

  /** 3661 seconds: no step rounds up, one each of hours, minutes and seconds. */
  lemma HourMinuteSecond()
    ensures Breakdown(3661) == CalculatedResult(0, 1, 1, 1)
  {
    BreakdownFields(3661);
    assert 3661 / 86400 == 0 && 3661 % 86400 == 3661 && 3661 / 3600 == 1;
    assert 3661 % 3600 == 61 && 61 / 60 == 1 && 3661 % 60 == 1;
  }

  /** All three smaller fields present: three pieces, two spaces. */
  lemma ThreeFields()
    ensures Render(CalculatedResult(0, 1, 1, 1)) == "1h 1m 1s"
  {
    var b, h, m, s := CalculatedResult(0, 1, 1, 1), Entry(Hours, 1), Entry(Minutes, 1), Entry(Seconds, 1);
    KeptEntries(b);
    assert Positive(Entries(b)) == [h, m, s];
    PieceOf(h, "1");
    PieceOf(m, "1");
    PieceOf(s, "1");
    RenderThree(h, m, s);
    assert Render(b) == "1h" + " " + "1m" + " " + "1s";
  }

  /** Half a day rounds the days up to 1 while the hours still show 12. */
  lemma HalfDay()
    ensures Breakdown(43200) == CalculatedResult(1, 12, 0, 0)
    ensures Render(CalculatedResult(1, 12, 0, 0)) == "1d 12h"
  {
    BreakdownFields(43200);
    assert 43200 / 86400 == 0 && 43200 % 86400 == 43200 && 43200 / 3600 == 12;
    assert 43200 % 3600 == 0 && 0 / 60 == 0 && 43200 % 60 == 0;
    RenderDayTwelveHours();
  }

  lemma RenderDayTwelveHours()
    ensures Render(CalculatedResult(1, 12, 0, 0)) == "1d 12h"
  {
    KeptEntries(CalculatedResult(1, 12, 0, 0));
    PieceOf(Entry(Days, 1), "1");
    PieceOf(Entry(Hours, 12), "12");
    RenderTwo(Entry(Days, 1), Entry(Hours, 12));
  }

  /** The hours reach 24: 23.5 hours left after the days round up to 24. */
  lemma HoursReachTwentyFour()
    ensures Breakdown(84600) == CalculatedResult(1, 24, 30, 0)
  {
    BreakdownFields(84600);
    assert 84600 / 86400 == 0 && 84600 % 86400 == 84600 && 84600 / 3600 == 23;
    assert 84600 % 3600 == 1800 && 1800 / 60 == 30 && 84600 % 60 == 0;
  }

  /** The minutes reach 60: 59.5 minutes left after the hours round up to 60. */
  lemma MinutesReachSixty()
    ensures Breakdown(3570) == CalculatedResult(0, 1, 60, 30)
  {
    BreakdownFields(3570);
    assert 3570 / 86400 == 0 && 3570 % 86400 == 3570 && 3570 / 3600 == 0;
    assert 3570 % 3600 == 3570 && 3570 / 60 == 59 && 3570 % 60 == 30;
  }

  /** A whole day shows as days only. */
  lemma OneDay()
    ensures Breakdown(86400) == CalculatedResult(1, 0, 0, 0)
    ensures Render(CalculatedResult(1, 0, 0, 0)) == "1d"
  {
    BreakdownFields(86400);
    assert 86400 / 86400 == 1 && 86400 % 86400 == 0 && 0 / 3600 == 0;
    assert 86400 % 3600 == 0 && 0 / 60 == 0 && 86400 % 60 == 0;
    RenderOneDay();
  }

  lemma RenderOneDay()
    ensures Render(CalculatedResult(1, 0, 0, 0)) == "1d"
  {
    KeptEntries(CalculatedResult(1, 0, 0, 0));
    PieceOf(Entry(Days, 1), "1");
  }

  // Steps of the samples' rendering, each small enough to check on its own.

  lemma PositiveCons(e: Entry, rest: seq<Entry>)
    ensures Positive([e] + rest) == (if e.value > 0 then [e] else []) + Positive(rest)
  {
    assert ([e] + rest)[1..] == rest;
  }

  /** The entries the filter keeps, written out field by field. */
  lemma KeptEntries(b: CalculatedResult)
    ensures Positive(Entries(b))
            == (if b.days > 0 then [Entry(Days, b.days)] else [])
             + ((if b.hours > 0 then [Entry(Hours, b.hours)] else [])
             + ((if b.minutes > 0 then [Entry(Minutes, b.minutes)] else [])
             + ((if b.seconds > 0 then [Entry(Seconds, b.seconds)] else []) + [])))
  {
    var d, h, m, s := Entry(Days, b.days), Entry(Hours, b.hours), Entry(Minutes, b.minutes), Entry(Seconds, b.seconds);
    var t1, t2, t3 := [h, m, s], [m, s], [s];
    assert Entries(b) == [d] + t1;
    assert t1 == [h] + t2 && t2 == [m] + t3 && t3 == [s] + [];
    PositiveCons(d, t1);
    PositiveCons(h, t2);
    PositiveCons(m, t3);
    PositiveCons(s, []);
  }

  /** A piece for a value whose decimal rendering is `digits`, which must have at most two digits. */
  lemma PieceOf(e: Entry, digits: string)
    requires e.value < 100
    requires digits == if e.value < 10 then [DigitChar(e.value)] else [DigitChar(e.value / 10), DigitChar(e.value % 10)]
    ensures Piece(e) == digits + UnitString(e.unit, e.value)
  {
    if e.value >= 10 {
      assert NatToString(e.value / 10) == [DigitChar(e.value / 10)];
    }
  }

  lemma RenderTwo(e1: Entry, e2: Entry)
    ensures Join(Pieces([e1, e2]), ' ') == Piece(e1) + " " + Piece(e2)
  {
    assert [e1, e2][1..] == [e2];
    assert Pieces([e1, e2]) == [Piece(e1), Piece(e2)];
    assert [Piece(e1), Piece(e2)][1..] == [Piece(e2)];
  }

  lemma RenderThree(e1: Entry, e2: Entry, e3: Entry)
    ensures Join(Pieces([e1, e2, e3]), ' ') == Piece(e1) + " " + Piece(e2) + " " + Piece(e3)
  {
    assert [e1, e2, e3][1..] == [e2, e3];
    RenderTwo(e2, e3);
    assert Pieces([e1, e2, e3]) == [Piece(e1)] + Pieces([e2, e3]);
    assert Pieces([e2, e3]) == [Piece(e2), Piece(e3)] by {
      assert [e2, e3][1..] == [e3];
    }
    assert [Piece(e1), Piece(e2), Piece(e3)][1..] == [Piece(e2), Piece(e3)];
  }
}

/** Sample inputs worked through the distance model. */
module DistanceSamples {
  import opened Wrappers
  import opened Text
  import opened DistanceFormat

  /** The thresholds are strict: exactly 1000, 289 and 300 meters keep the small unit. */
  lemma Boundaries()
    ensures SelectUnit(1000.0, "metric") == Success(Measurement(Meter, 1000.0))
    ensures SelectUnit(1001.0, "metric") == Success(Measurement(Kilometer, 1.001))
    ensures SelectUnit(289.0, "imperial").value.unit == Foot
    ensures SelectUnit(290.0, "imperial").value.unit == Mile
    ensures SelectUnit(300.0, "imperialWithYards").value.unit == Yard
    ensures SelectUnit(301.0, "imperialWithYards").value.unit == Mile
  {
  }

  /** An unknown system name is refused whatever the distance, and a missing one means metric. */
  lemma SystemNames(f: DistanceFormatter, meters: real)
    ensures SelectUnit(meters, "bogus") == Failure(UnsupportedMeasurementSystem)
    ensures f.Request(meters, None, None) == f.Request(meters, Some("metric"), Some(0))
  {
  }

  /** An underscore-separated tag becomes hyphen-separated. */
  lemma UnderscoreTag()
    ensures NormalizeLocale("en_US") == "en-US"
  {
    assert ReplaceFirst("en_US", '_', '-') == "en-US" by {
      assert ReplaceFirst("_US", '_', '-') == "-US";
    }
  }
}
