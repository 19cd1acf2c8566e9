// Model of the forecast tool's pure pieces: the day-count clamp, the WMO
// weather-code lookup, the 16-point compass direction of a wind bearing,
// and the loop that renders one line per forecast day.

module Weather {
  import opened Text

  // ---------------------------------------------------------------------
  // Days

  /** The number of forecast days asked for: `days` held between 1 and 7. */
  function ClampDays(days: int): (r: int)
    ensures 1 <= r <= 7
    ensures 1 <= days <= 7 ==> r == days
    ensures days < 1 ==> r == 1
    ensures days > 7 ==> r == 7
  {
    if days < 1 then 1 else if days > 7 then 7 else days
  }

  /** The number of forecast lines: the clamped day count, or fewer when
      there are fewer dates. */
  function LineCount(dates: nat, days: int): (n: nat)
    ensures n <= 7 && n <= dates && n <= ClampDays(days)
    ensures n == dates || n == ClampDays(days)
  {
    if dates < ClampDays(days) then dates else ClampDays(days)
  }

  // ---------------------------------------------------------------------
  // WMO weather codes

  /** `WMO_MAP`: the descriptions of the WMO weather codes the tool knows. */
  function WmoName(code: int): (r: Option<string>)
    ensures r.Some? ==> 0 <= code <= 99
  {
    match code
    case 0 => Some("Clear sky")
    case 1 => Some("Mainly clear")
    case 2 => Some("Partly cloudy")
    case 3 => Some("Overcast")
    case 45 => Some("Fog")
    case 48 => Some("Depositing rime fog")
    case 51 => Some("Light drizzle")
    case 53 => Some("Moderate drizzle")
    case 55 => Some("Dense drizzle")
    case 56 => Some("Freezing drizzle (light)")
    case 57 => Some("Freezing drizzle (dense)")
    case 61 => Some("Slight rain")
    case 63 => Some("Moderate rain")
    case 65 => Some("Heavy rain")
    case 66 => Some("Freezing rain (light)")
    case 67 => Some("Freezing rain (heavy)")
    case 71 => Some("Slight snow")
    case 73 => Some("Moderate snow")
    case 75 => Some("Heavy snow")
    case 77 => Some("Snow grains")
    case 80 => Some("Rain showers (slight)")
    case 81 => Some("Rain showers (moderate)")
    case 82 => Some("Rain showers (violent)")
    case 85 => Some("Snow showers (slight)")
    case 86 => Some("Snow showers (heavy)")
    case 95 => Some("Thunderstorm")
    case 96 => Some("Thunderstorm w/ slight hail")
    case 99 => Some("Thunderstorm w/ heavy hail")
    case _ => None
  }

  /** The codes the table has. */
  const WmoCodes: set<int> := {0, 1, 2, 3, 45, 48, 51, 53, 55, 56, 57, 61, 63, 65, 66, 67,
                               71, 73, 75, 77, 80, 81, 82, 85, 86, 95, 96, 99}

  lemma WmoNameKeys(code: int)
    ensures WmoName(code).Some? <==> code in WmoCodes
  {
  }

  /** An optional code as Python prints it, "None" when it is missing. */
  function CodeText(code: Option<int>): string {
    if code.Some? then IntToString(code.value) else "None"
  }

  /** The name of a weather code, looked up with -1 standing for a missing
      code, or "Code " and the code as printed when the table has no entry. */
  function WmoDescription(code: Option<int>): (r: string)
    ensures code.Some? && WmoName(code.value).Some? ==> r == WmoName(code.value).value
    ensures code.None? || WmoName(code.value).None? ==> r == "Code " + CodeText(code)
  {
    var key := if code.Some? then code.value else -1;
    if WmoName(key).Some? then WmoName(key).value else "Code " + CodeText(code)
  }

  /** A missing code is described as "Code None": -1 is not in the table. */
  lemma MissingCodeDescription()
    ensures WmoDescription(None) == "Code None"
  {
    assert WmoName(-1).None?;
  }

  /** A description never comes out empty. */
  lemma WmoDescriptionNonEmpty(code: Option<int>)
    ensures WmoDescription(code) != []
  {
  }

  // ---------------------------------------------------------------------
  // Compass direction

  const CompassPoints: seq<string> := [
    "N", "NNE", "NE", "ENE", "E", "ESE", "SE", "SSE",
    "S", "SSW", "SW", "WSW", "W", "WNW", "NW", "NNW"]

  /** The sixteenth of the circle nearest an integer bearing, computed in
      integer arithmetic: dividing by 22.5 and adding a half is dividing
      4 times the bearing plus 45 by 90. */
  function CompassIndex(d: int): (i: int)
    ensures 0 <= i < 16
  {
    ((4 * (d % 360) + 45) / 90) % 16
  }

  /** The integer form computes the source's floating-point formula
      exactly: the quotient is never negative, so `int()` is the floor. */
  lemma CompassIndexIsRounding(d: int)
    ensures CompassIndex(d) == ((d % 360) as real / 22.5 + 0.5).Floor % 16
  {
    var m := d % 360;
    assert (m as real / 22.5 + 0.5) == (4 * m + 45) as real / 90.0;
    FloorOfQuotient(4 * m + 45, 90);
  }

  lemma FloorOfQuotient(a: nat, b: nat)
    requires b > 0
    ensures (a as real / b as real).Floor == a / b
  {
    var q, r := a / b, a % b;
    var br := b as real;
    assert a as real == q as real * br + r as real;
    assert a as real / br == q as real + r as real / br;
    assert 0.0 <= r as real / br < 1.0;
  }

  /** A bearing and the same bearing a full turn later point the same way. */
  lemma CompassIndexPeriodic(d: int, k: int)
    ensures CompassIndex(d + 360 * k) == CompassIndex(d)
  {
    assert (d + 360 * k) % 360 == d % 360;
  }

  /** Each point covers 22.5 degrees centred on its bearing: the index is `k`
      exactly when `4 * (d % 360) + 45` lies in `[90 k, 90 k + 90)`, or for
      north also in the last half-sector below 360. */
  lemma CompassIndexSector(d: int, k: int)
    requires 0 <= k < 16
    ensures CompassIndex(d) == k <==>
            (90 * k <= 4 * (d % 360) + 45 < 90 * k + 90) || (k == 0 && 4 * (d % 360) + 45 >= 1440)
  {
  }

  /** No integer bearing sits on a sector boundary: `4m + 45` is odd. */
  lemma CompassNoBoundary(d: int)
    ensures (4 * (d % 360) + 45) % 90 != 0
  {
  }

  /** `_fmt_dir`'s argument: a number `float()` accepts (an integer
      bearing here), or anything else, shown as `str(deg)`. */
  datatype Bearing = Degrees(d: int) | Unreadable(shown: string)

  /** `_fmt_dir`: the compass point and the bearing as given, or the
      argument with a degree sign when it is not a number. */
  function FmtDir(deg: Bearing): string {
    match deg
    case Degrees(d) => CompassPoints[CompassIndex(d)] + " (" + IntToString(d) + "\U{B0})"
    case Unreadable(s) => s + "\U{B0}"
  }

  /** A bearing a whole number of turns away is shown under the same
      compass point, but the number printed is not reduced, so the two
      texts differ unless the bearings are equal. */
  lemma FmtDirPeriodicPoint(d: int, k: int)
    ensures StartsWith(FmtDir(Degrees(d)), CompassPoints[CompassIndex(d)] + " (")
    ensures StartsWith(FmtDir(Degrees(d + 360 * k)), CompassPoints[CompassIndex(d)] + " (")
    ensures k != 0 ==> FmtDir(Degrees(d)) != FmtDir(Degrees(d + 360 * k))
  {
    CompassIndexPeriodic(d, k);
    var p := CompassPoints[CompassIndex(d)] + " (";
    var e := d + 360 * k;
    var a, b := IntToString(d), IntToString(e);
    var x, y := a + "\U{B0})", b + "\U{B0})";
    assert FmtDir(Degrees(d)) == p + x;
    assert FmtDir(Degrees(e)) == p + y;
    if p + x == p + y {
      assert x == (p + x)[|p|..];
      assert y == (p + y)[|p|..];
      assert a == x[..|a|];
      assert b == y[..|b|];
      IntToStringInjective(d, e);
    }
  }

  /** The printed degree is not reduced: 450 degrees is east, printed as 450. */
  lemma FmtDirUnreduced()
    ensures FmtDir(Degrees(450)) == "E (" + IntToString(450) + "\U{B0})"
  {
    assert CompassIndex(450) == 4;
  }

  // ---------------------------------------------------------------------
  // Daily forecast lines

  /** The daily arrays of the response, each value already as the
      f-string shows it; a missing array is empty. */
  datatype Daily = Daily(dates: seq<string>, tmax: seq<string>, tmin: seq<string>,
                         popMax: seq<string>, codes: seq<Option<int>>)

  const Missing := "\U{2014}"

  /** Day `i` of a daily array, or the dash when the array is too short. */
  function ValueAt(xs: seq<string>, i: nat): string {
    if i < |xs| then xs[i] else Missing
  }

  /** Day `i`'s weather code, or none when the code array is too short. */
  function CodeAt(codes: seq<Option<int>>, i: nat): Option<int> {
    if i < |codes| then codes[i] else None
  }

  /** The line of day `i`; `weekday(dt)` is the `%a` label of an ISO date
      (`None` when the date does not parse, and the date itself is used). */
  function DailyLine(daily: Daily, i: nat, weekday: string -> Option<string>): string
    requires i < |daily.dates|
  {
    var dt := daily.dates[i];
    var wd := if weekday(dt).Some? then weekday(dt).value else dt;
    wd + " " + dt + ": " + WmoDescription(CodeAt(daily.codes, i))
    + "; High " + ValueAt(daily.tmax, i) + " \U{B0}F / Low " + ValueAt(daily.tmin, i)
    + " \U{B0}F; POP(max) " + ValueAt(daily.popMax, i) + "%"
  }

  /** A day whose code array is short is described as "Code None". */
  lemma ShortCodesDescribedAsNone(daily: Daily, i: nat)
    requires |daily.codes| <= i
    ensures WmoDescription(CodeAt(daily.codes, i)) == "Code None"
  {
    MissingCodeDescription();
  }

  /** A day for which only the date is known still gets a full line: its
      code is described as "Code None" and every figure is a dash. */
  lemma DailyLineDefaults(daily: Daily, i: nat, weekday: string -> Option<string>)
    requires i < |daily.dates|
    requires |daily.tmax| <= i && |daily.tmin| <= i && |daily.popMax| <= i && |daily.codes| <= i
    ensures var dt := daily.dates[i];
            var wd := if weekday(dt).Some? then weekday(dt).value else dt;
            DailyLine(daily, i, weekday)
            == wd + " " + dt + ": Code None; High " + Missing + " \U{B0}F / Low " + Missing
               + " \U{B0}F; POP(max) " + Missing + "%"
  {
    ShortCodesDescribedAsNone(daily, i);
  }

  /** The loop of `weather_forecast` over `range(n)`. */
  method ForecastLines(daily: Daily, days: int, weekday: string -> Option<string>) returns (lines: seq<string>)
    ensures |lines| == LineCount(|daily.dates|, days)
    ensures forall i :: 0 <= i < |lines| ==> i < |daily.dates| && lines[i] == DailyLine(daily, i, weekday)
  {
    var n := LineCount(|daily.dates|, days);
    lines := [];
    var i := 0;
    while i < n
      invariant 0 <= i <= n && |lines| == i
      invariant forall k :: 0 <= k < i ==> lines[k] == DailyLine(daily, k, weekday)
    {
      lines := lines + [DailyLine(daily, i, weekday)];
      i := i + 1;
    }
  }

  const Bullet := "\U{2022} "

  /** Each line with a bullet in front. */
  function Bullets(lines: seq<string>): (r: seq<string>)
    ensures |r| == |lines| && forall i :: 0 <= i < |lines| ==> r[i] == Bullet + lines[i]
  {
    if lines == [] then [] else [Bullet + lines[0]] + Bullets(lines[1..])
  }

  const NoDailyData := Bullet + "(No daily data)"

  /** The forecast block: the bulleted lines joined by newlines, or the
      fixed text when there are none. */
  function ForecastBlock(lines: seq<string>): string {
    if lines == [] then NoDailyData else Join("\n", Bullets(lines))
  }

  /** The block always starts with a bullet and has one text line per daily
      line (a single line when there are none). */
  lemma ForecastBlockLines(lines: seq<string>)
    requires forall i :: 0 <= i < |lines| ==> Count(lines[i], '\n') == 0
    ensures StartsWith(ForecastBlock(lines), Bullet)
    ensures Count(ForecastBlock(lines), '\n') == if lines == [] then 0 else |lines| - 1
  {
    if lines == [] {
      NoDailyDataOneLine();
    } else {
      BulletedLines(lines);
    }
  }

  lemma NoDailyDataOneLine()
    ensures StartsWith(NoDailyData, Bullet) && Count(NoDailyData, '\n') == 0
  {
    CountZero(NoDailyData, '\n');
  }

  lemma BulletedLines(lines: seq<string>)
    requires lines != []
    requires forall i :: 0 <= i < |lines| ==> Count(lines[i], '\n') == 0
    ensures StartsWith(Join("\n", Bullets(lines)), Bullet)
    ensures Count(Join("\n", Bullets(lines)), '\n') == |lines| - 1
  {
    var bs := Bullets(lines);
    CountZero(Bullet, '\n');
    forall i | 0 <= i < |bs|
      ensures Count(bs[i], '\n') == 0
    {
      CountAppend(Bullet, lines[i], '\n');
    }
    JoinLines(bs);
    JoinStartsWith("\n", bs);
    StartsWithTrans(Join("\n", bs), bs[0], Bullet);
  }

  /** A single line gets exactly one bullet. */
  lemma ForecastBlockSingle(line: string)
    ensures ForecastBlock([line]) == Bullet + line
  {
    assert Bullets([line]) == [Bullet + line];
  }

  /** No dates means the fixed text. */
  lemma NoDatesNoData(daily: Daily, days: int, lines: seq<string>)
    requires |daily.dates| == 0 && |lines| == LineCount(|daily.dates|, days)
    ensures ForecastBlock(lines) == NoDailyData
  {
  }
}
