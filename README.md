# platform-formatters in Dafny

A model of the two formatters in `js/src/index.ts`, with proofs about them.

- **LocalizedDurationFormatter** takes a number of seconds. `calculate` breaks it into days, hours, minutes and seconds. It walks a running remainder down the units. Each field is the quotient rounded by `toFixed(0)`, and the next remainder comes from the unrounded value with `%`. `format` keeps the positive fields in the order days, hours, minutes, seconds. It writes each as its value followed by a one-letter suffix (`d`, `h`, `m`, `s`) and joins them with single spaces.
- **LocalizedDistanceFormatter** reads the platform locale tag once and turns its first `_` into `-`. Its `format` picks a unit from the measurement system with strict thresholds: metric above 1000 m is kilometer, otherwise meter. Imperial above 289 m is mile, otherwise foot. imperialWithYards above 300 m is mile, otherwise yard. It converts the meters by a fixed factor and hands the result to the platform's number formatter. Any other system name throws "Unsupported measurement system".

Files:

- `wrappers.dfy`: `Option` and `Result`.
- `text.dfy`: decimal rendering of integers, `join`, first-occurrence `replace`, and their inverses (`DigitsValue`, `Split`).
- `duration.dfy`: the duration formatter.
  - `Calculate` is an imperative method that follows `calculate` step by step.
  - `Breakdown` is the closed form it is proved equal to.
  - `Render` is the pure `format` pipeline.
  - `Parse` reads a rendered string back and serves as the inverse for a round-trip proof.
- `distance.dfy`: the distance formatter.
  - `SelectUnit` is the `switch`.
  - `DistanceFormatter.Request` is the call made to the number formatter.
  - `DistanceFormatter.Format` delegates that call to an injected formatter function.
  - `NormalizeLocale` normalises the locale tag.
- `samples.dfy`: sample inputs worked through both models.

Modelling choices:

- Durations are `nat` seconds. `toFixed(0)` on a quotient `a / b` is exact integer arithmetic: `(2a + b) / (2b)`, round half up.
- Distances are exact `real`s.
- Every operation is a function or a method without hidden state, so calling `format` twice with the same arguments gives the same result.

Consequences of rounding each field on its own, which the model follows:

- 90 seconds renders as `"2m 30s"`, not `"1m 30s"`, because 90 / 60 = 1.5 rounds up to 2 while the seconds still show 30 (`DurationSamples.NinetySeconds`).
- The hours are not capped at 23, nor the minutes at 59. Half a day renders as `"1d 12h"` (`DurationSamples.HalfDay`). The model proves `hours <= 24` and `minutes <= 60`, and both limits are reached: 84600 seconds breaks down as 1 day, 24 hours and 30 minutes (`DurationSamples.HoursReachTwentyFour`), and 3570 seconds as 1 hour, 60 minutes and 30 seconds (`DurationSamples.MinutesReachSixty`).

## Model

| member | source | states |
|---|---|---|
| DurationFormat.RoundHalfUp | js/src/index.ts:51-54 | the rounded quotient is the floor quotient plus one exactly when the remainder is at least half the divisor |
| DurationFormat.RoundHalfUpNearest | js/src/index.ts:51-54 | the rounded quotient r satisfies b(2r-1) <= 2a < b(2r+1): it is the integer nearest to a/b, and a tie goes to the larger one |
| DurationFormat.HourRemainder | js/src/index.ts:55-62 | what is left after the days, reduced modulo an hour, equals the input modulo an hour |
| DurationFormat.MinuteRemainder | js/src/index.ts:62-69 | what is left after the hours, reduced modulo a minute, equals the input modulo a minute |
| DurationFormat.Calculate | js/src/index.ts:40-80 | the step-by-step walk with a mutable remainder (extraction skipped for any unit missing from `units`) yields the closed-form breakdown; hours <= 24, minutes <= 60, seconds < 60 |
| DurationFormat.BreakdownFields | js/src/index.ts:49-77 | each field is the whole number of its unit left by the larger units, plus a carry of one when the leftover is at least half a unit; seconds equal the input modulo 60 |
| DurationFormat.BreakdownTotal | js/src/index.ts:40-79 | days*86400 + hours*3600 + minutes*60 + seconds equals the input plus one unit per step that rounded up; so it is never below the input, and it equals the input exactly when no step rounded up |
| DurationFormat.BreakdownZero | js/src/index.ts:40-79 | all four fields are zero exactly when the input is 0 |
| DurationFormat.WholeDays | js/src/index.ts:50-57 | n whole days break down to n days and nothing else, for every n, so the days are unbounded |
| DurationFormat.UnitString | js/src/index.ts:82-97 | the short-style suffix is one character, neither a digit nor a space, and it names the unit it was asked for |
| DurationFormat.PositiveKeeps | js/src/index.ts:119 | the filter keeps an entry exactly when it is one of the fields and its value is positive |
| DurationFormat.Entries | js/src/index.ts:118 | the record's entries are the four units in the order days, hours, minutes, seconds, each paired with that field's value |
| DurationFormat.Positive | js/src/index.ts:119 | the filter keeps no more entries than it is given (which ones it keeps is stated by PositiveKeeps) |
| DurationFormat.Piece | js/src/index.ts:120 | a piece is at least two characters long and has no space, so the single-space join keeps pieces apart |
| DurationFormat.ParsePieceOfPiece | js/src/index.ts:120 | a piece reads back as its entry: everything before the last character is the value's decimal digits, and the last character is the suffix naming the unit |
| DurationFormat.Pieces | js/src/index.ts:120 | one piece per entry |
| DurationFormat.PiecesAt | js/src/index.ts:120 | one rendered piece per kept entry, in the same order, each being the value followed by the unit's suffix |
| DurationFormat.RenderParse | js/src/index.ts:118-121 | the rendered string parses back into the record: it shows exactly the positive fields, each once, in the order days, hours, minutes, seconds, as `<value><suffix>` separated by single spaces |
| DurationFormat.Render | js/src/index.ts:118-121 | the rendered record is empty exactly when every field is 0; there is no "0s" fallback |
| DurationFormat.Format | js/src/index.ts:115-122 | `format` renders the breakdown of its input; the output parses back to that breakdown and is empty exactly when the input is 0 |
| Text.NatToString | js/src/index.ts:120 | an integer renders as a non-empty string of decimal digits with a leading zero only for 0 |
| Text.DigitsValueOfNatToString | js/src/index.ts:120 | reading the decimal rendering back gives the integer |
| Text.SplitJoin | js/src/index.ts:121 | splitting at the separator undoes `join` when no part contains the separator |
| Text.Join | js/src/index.ts:121 | the joined string starts with the first part, and joining non-empty parts gives the empty string exactly when there are no parts |
| Text.IndexOf | js/src/index.ts:130 | the result is the first position of the character, or -1 exactly when the character is absent |
| Text.ReplaceFirst | js/src/index.ts:130 | `replace` with a one-character search string keeps the length and changes only the first occurrence; a string without that character is unchanged |
| Text.ReplaceFirstCounts | js/src/index.ts:130 | replacing removes exactly one of the searched character and adds exactly one replacement character |
| DistanceFormat.SelectUnit | js/src/index.ts:139-172 | an unrecognised system name gives the unsupported-system error. A recognised system gives its large unit exactly when the distance is strictly above its threshold (1000, 289, 300 m) and its small unit otherwise. The converted amount, converted back with the unit's factor, is the original distance in meters |
| DistanceFormat.DistanceFormatter.Request | js/src/index.ts:131-179 | an omitted system means "metric", and omitted fraction digits mean 0. The call fails, with the unsupported-system error, exactly when the system name is unrecognised. Otherwise the number formatter receives the formatter's locale, style "unit", unit display "short", the fraction digits, and the identifier of the system's large unit when the distance is strictly above its threshold or of its small unit otherwise; the amount it receives, converted back to meters, is the input distance |
| DistanceFormat.DistanceFormatter.Format | js/src/index.ts:131-179 | fails, with the unsupported-system error, exactly when the system name (default "metric") is unrecognised; otherwise the result is the injected number formatter applied to the locale, style "unit", the identifier of the unit picked by the strict threshold, unit display "short", the fraction digits (default 0), and an amount that converts back to the input distance in meters |
| DistanceFormat.NormalizeLocale | js/src/index.ts:130 | the locale tag with its first `_` replaced by `-` and everything else kept; a tag without `_` is unchanged; the tag has one `_` fewer and one `-` more when it had an `_` |
| DistanceFormat.LocalizedDistanceFormatter | js/src/index.ts:129-130 | the formatter's locale is the platform tag, read once, with only its first `_` turned into `-`, and with its length kept |
| DistanceFormat.Identifier | js/src/index.ts:20-26 | each unit's identifier names that unit back |
| DistanceFormat.Message | js/src/index.ts:171 | the unsupported-system error carries the text "Unsupported measurement system" |
| DistanceFormat.OnlyFirstUnderscore | js/src/index.ts:130 | of two underscores in a tag, only the first becomes `-` and the later one stays |
| DurationSamples.NinetySeconds | js/src/index.ts:67-76 | 90 seconds breaks down as 2 minutes and 30 seconds and renders as "2m 30s" |
| DurationSamples.HourMinuteSecond | js/src/index.ts:59-76 | 3661 seconds breaks down as 1 hour, 1 minute, 1 second |
| DurationSamples.ThreeFields | js/src/index.ts:118-121 | the record with one hour, minute and second renders as "1h 1m 1s" |
| DurationSamples.HalfDay | js/src/index.ts:49-64 | 43200 seconds breaks down as 1 day and 12 hours and renders as "1d 12h" |
| DurationSamples.HoursReachTwentyFour | js/src/index.ts:49-64 | 84600 seconds breaks down as 1 day, 24 hours and 30 minutes, so the hours reach 24 |
| DurationSamples.MinutesReachSixty | js/src/index.ts:59-71 | 3570 seconds breaks down as 1 hour, 60 minutes and 30 seconds, so the minutes reach 60 |
| DurationSamples.OneDay | js/src/index.ts:49-57 | 86400 seconds breaks down as 1 day and renders as "1d" |
| DistanceSamples.Boundaries | js/src/index.ts:139-168 | exactly 1000, 289 and 300 meters keep meter, foot and yard; 1001, 290 and 301 meters switch to kilometer and mile |
| DistanceSamples.SystemNames | js/src/index.ts:133-171 | an unknown system name is an error for every distance; an omitted system and fraction-digit count behave as "metric" and 0 |
| DistanceSamples.UnderscoreTag | js/src/index.ts:130 | "en_US" becomes "en-US" |

## Left out

- `getLocale` (js/src/getLocale.ts, js/src/getLocale.native.ts): these read platform settings (browser language list, device settings) and fall back to "en". The model takes the tag they return as the parameter `platformLocale` of `LocalizedDistanceFormatter`.
- The rendering done by `Intl.NumberFormat` (js/src/index.ts:174-179): it is a foreign locale and pluralisation engine. `DistanceFormatter.Format` takes it as a function parameter, and the model stops at the call it receives. Its own validation of the tag and of `maximumFractionDigits` is not modelled.
- The "long" unit style of `getUnitString` (js/src/index.ts:98-108) is not modelled, and nor is the `plural` value it would use. The branch cannot run because `unitStyle` is fixed to "short".
- DurationFormat.Calculate: the `units.find(...)` guards are modelled as membership in the constant unit list. They always hold, so every extraction step runs.
- DurationFormat.RoundHalfUp: IEEE-754 arithmetic is not modelled. The model uses exact integers for durations and exact reals for distances. Non-integer durations such as 59.6 seconds, quotients large enough for `toFixed` to switch to exponent notation, and the binary rounding of the distance conversions are outside the model.
- Negative, NaN and infinite inputs: the code does not validate them and its behaviour on them is unspecified.
- A `system` or `maximumFractionDigits` argument passed as `null`: the model's `None` stands for an omitted or `undefined` argument, both of which take the default, and `null` is not modelled.
- DurationFormat.Positive: its own contract states only the length bound. Which entries it keeps is stated by the lemma `PositiveKeeps`, because a quantified clause on the function makes every proof about concrete records much more expensive.
