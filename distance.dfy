/**
 * LocalizedDistanceFormatter: a distance in meters shown in the larger or the
 * smaller unit of a measurement system, converted by a fixed factor, and handed
 * with the formatter's locale to a locale-aware number formatter.
 */
module DistanceFormat {
  import opened Wrappers
  import opened Text

  const MetersPerMile: real := 1609.344
  const FeetPerMeter: real := 3.28084
  const YardsPerMeter: real := 1.093613
  const MetersPerKilometer: real := 1000.0

  datatype MeasureUnit = Meter | Kilometer | Foot | Yard | Mile

  /** The unit identifier the number formatter is given. */
  function Identifier(u: MeasureUnit): (id: string)
    ensures UnitNamed(id) == Some(u)
  {
    match u
    case Meter => "meter"
    case Kilometer => "kilometer"
    case Foot => "foot"
    case Yard => "yard"
    case Mile => "mile"
  }

  /** The unit an identifier names, if any. */
  function UnitNamed(id: string): Option<MeasureUnit> {
    if id == "meter" then Some(Meter)
    else if id == "kilometer" then Some(Kilometer)
    else if id == "foot" then Some(Foot)
    else if id == "yard" then Some(Yard)
    else if id == "mile" then Some(Mile)
    else None
  }

  /** How many meters one amount of `u` is: the inverse of each conversion. */
  function ToMeters(u: MeasureUnit, amount: real): real {
    match u
    case Meter => amount
    case Kilometer => amount * MetersPerKilometer
    case Foot => amount / FeetPerMeter
    case Yard => amount / YardsPerMeter
    case Mile => amount * MetersPerMile
  }

  /** The measurement systems the switch recognises, by the names callers pass. */
  datatype DistanceSystem = Metric | Imperial | ImperialWithYards

  function SystemNamed(name: string): Option<DistanceSystem> {
    if name == "metric" then Some(Metric)
    else if name == "imperial" then Some(Imperial)
    else if name == "imperialWithYards" then Some(ImperialWithYards)
    else None
  }

  /** The unit for short distances in each system. */
  function SmallUnit(s: DistanceSystem): MeasureUnit {
    match s
    case Metric => Meter
    case Imperial => Foot
    case ImperialWithYards => Yard
  }

  /** The unit for long distances in each system. */
  function LargeUnit(s: DistanceSystem): MeasureUnit {
    match s
    case Metric => Kilometer
    case Imperial => Mile
    case ImperialWithYards => Mile
  }

  /** Distances strictly above this many meters are shown in the large unit. */
  function Threshold(s: DistanceSystem): real {
    match s
    case Metric => 1000.0
    case Imperial => 289.0
    case ImperialWithYards => 300.0
  }

  datatype DistanceError = UnsupportedMeasurementSystem

  /** The text of the error `format` throws. */
  function Message(e: DistanceError): (m: string)
    ensures e == UnsupportedMeasurementSystem ==> m == "Unsupported measurement system"
  {
    match e
    case UnsupportedMeasurementSystem => "Unsupported measurement system"
  }

  datatype Measurement = Measurement(unit: MeasureUnit, distance: real)

  /**
   * The `switch (system)` of `format`: a recognised system picks its large
   * unit strictly above its threshold and its small unit otherwise, and the
   * converted amount denotes the same distance; any other system is an error.
   */
  function SelectUnit(distanceInMeters: real, system: string): (r: Result<Measurement, DistanceError>)
    ensures SystemNamed(system).None? ==> r == Failure(UnsupportedMeasurementSystem)
    ensures SystemNamed(system).Some? ==>
              var s := SystemNamed(system).value;
              && r.Success?
              && r.value.unit == (if distanceInMeters > Threshold(s) then LargeUnit(s) else SmallUnit(s))
              && ToMeters(r.value.unit, r.value.distance) == distanceInMeters
  {
    if system == "imperial" then
      if distanceInMeters > 289.0 then Success(Measurement(Mile, distanceInMeters / MetersPerMile))
      else Success(Measurement(Foot, distanceInMeters * FeetPerMeter))
    else if system == "imperialWithYards" then
      if distanceInMeters > 300.0 then Success(Measurement(Mile, distanceInMeters / MetersPerMile))
      else Success(Measurement(Yard, distanceInMeters * YardsPerMeter))
    else if system == "metric" then
      if distanceInMeters > 1000.0 then Success(Measurement(Kilometer, distanceInMeters / 1000.0))
      else Success(Measurement(Meter, distanceInMeters))
    else
      Failure(UnsupportedMeasurementSystem)
  }

  /** The options object and the number passed to the locale-aware number formatter. */
  datatype NumberFormatOptions = NumberFormatOptions(
    locale: string, style: string, unit: string, unitDisplay: string, maximumFractionDigits: int)

  datatype NumberFormatCall = NumberFormatCall(options: NumberFormatOptions, value: real)

  /** The formatter object: the locale tag read and normalised once, at construction. */
  datatype DistanceFormatter = DistanceFormatter(locale: string) {

    /**
     * What `format` asks the number formatter to render. An omitted system
     * means "metric" and omitted fraction digits mean 0.
     */
    function Request(distanceInMeters: real, system: Option<string>, maximumFractionDigits: Option<int>)
      : (r: Result<NumberFormatCall, DistanceError>)
      ensures var name := system.GetOr("metric");
              && (r.Failure? <==> SystemNamed(name).None?)
              && (r.Failure? ==> r.error == UnsupportedMeasurementSystem)
              && (r.Success? ==>
                    var s := SystemNamed(name).value;
                    var u := if distanceInMeters > Threshold(s) then LargeUnit(s) else SmallUnit(s);
                    && r.value.options == NumberFormatOptions(locale, "unit", Identifier(u), "short", maximumFractionDigits.GetOr(0))
                    && ToMeters(u, r.value.value) == distanceInMeters)
    {
      match SelectUnit(distanceInMeters, system.GetOr("metric"))
      case Failure(e) => Failure(e)
      case Success(m) =>
        Success(NumberFormatCall(
          NumberFormatOptions(locale, "unit", Identifier(m.unit), "short", maximumFractionDigits.GetOr(0)),
          m.distance))
    }

    /**
     * `format`: the request rendered by `numberFormat`, which stands for the
     * platform's locale-aware number formatter.
     */
    function Format(numberFormat: NumberFormatCall -> string, distanceInMeters: real,
                    system: Option<string>, maximumFractionDigits: Option<int>): (r: Result<string, DistanceError>)
      ensures var name := system.GetOr("metric");
              && (r.Failure? <==> SystemNamed(name).None?)
              && (r.Failure? ==> r.error == UnsupportedMeasurementSystem)
              && (r.Success? ==>
                    var s := SystemNamed(name).value;
                    var u := if distanceInMeters > Threshold(s) then LargeUnit(s) else SmallUnit(s);
                    var options := NumberFormatOptions(locale, "unit", Identifier(u), "short", maximumFractionDigits.GetOr(0));
                    exists amount :: ToMeters(u, amount) == distanceInMeters
                                     && r.value == numberFormat(NumberFormatCall(options, amount)))
    {
      match Request(distanceInMeters, system, maximumFractionDigits)
      case Failure(e) => Failure(e)
      case Success(call) => Success(numberFormat(call))
    }
  }

  /** The locale tag with its first underscore turned into a hyphen ("en_US" becomes "en-US"). */
  function NormalizeLocale(tag: string): (r: string)
    ensures |r| == |tag|
    ensures '_' !in tag ==> r == tag
    ensures var i := IndexOf(tag, '_');
            if i < 0 then r == tag else r == tag[..i] + "-" + tag[i + 1..]
    ensures '_' in tag ==> (multiset(r)['_'] == multiset(tag)['_'] - 1
                            && multiset(r)['-'] == multiset(tag)['-'] + 1)
  {
    ReplaceFirstCounts(tag, '_', '-');
    ReplaceFirst(tag, '_', '-')
  }

  /** Of two underscores in a tag, the later one is left alone and the earlier one is not. */
  lemma OnlyFirstUnderscore(tag: string, i: nat, j: nat)
    requires i < j < |tag| && tag[i] == '_' && tag[j] == '_'
    ensures NormalizeLocale(tag)[j] == '_'
    ensures NormalizeLocale(tag)[IndexOf(tag, '_')] == '-'
  {
  }

  /** `LocalizedDistanceFormatter`: `platformLocale` is what the locale provider returns. */
  function LocalizedDistanceFormatter(platformLocale: string): (f: DistanceFormatter)
    ensures |f.locale| == |platformLocale|
    ensures var i := IndexOf(platformLocale, '_');
            if i < 0 then f.locale == platformLocale
            else f.locale == platformLocale[..i] + "-" + platformLocale[i + 1..]
  {
    DistanceFormatter(NormalizeLocale(platformLocale))
  }
}
