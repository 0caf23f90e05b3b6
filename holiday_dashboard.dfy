/** scripts/bin/holiday_dashboard.py: the usage bar, the uptime split, the battery
    classifiers and the weather icon of the dashboard. The readings psutil, the network and
    the clock supply arrive as parameters; rich rendering and printing are left out. */
module HolidayDashboard {
  import opened PyNum
  import opened PyStr

  // ---------------------------------------------------------------- get_bar

  /** The number of cells of the bar. */
  const BAR_WIDTH: int := 15

  /** A filled cell and an empty cell. */
  const FULL: char := '\U{2588}'
  const EMPTY: char := '\U{2591}'

  /** `int((percent / 100) * width)`. */
  function Filled(percent: real): int {
    Trunc(percent / 100.0 * BAR_WIDTH as real)
  }

  /** `"█" * filled + "░" * (width - filled)`; Python repeats a string a negative number of
      times as the empty string. */
  function Bar(percent: real): string {
    var f := Filled(percent);
    Repeat(FULL, Max(0, f)) + Repeat(EMPTY, Max(0, BAR_WIDTH - f))
  }

  /** For a percentage in [0, 100] the bar has exactly fifteen cells, the first
      `int(percent / 100 * 15)` of them filled and the others empty. */
  lemma BarShape(percent: real)
    requires 0.0 <= percent <= 100.0
    ensures 0 <= Filled(percent) <= BAR_WIDTH
    ensures |Bar(percent)| == BAR_WIDTH
    ensures forall i :: 0 <= i < BAR_WIDTH ==>
      (Bar(percent)[i] == FULL <==> i < Filled(percent)) && (Bar(percent)[i] == EMPTY <==> Filled(percent) <= i)
  {
    var f := Filled(percent);
    assert percent / 100.0 * 15.0 <= 15.0;
    TruncMono(percent / 100.0 * 15.0, 15.0);
    assert Trunc(15.0) == 15;
    var b := Bar(percent);
    forall i | 0 <= i < BAR_WIDTH
      ensures (b[i] == FULL <==> i < f) && (b[i] == EMPTY <==> f <= i)
    {
      if i < f {
        assert b[i] == Repeat(FULL, f)[i];
      } else {
        assert b[i] == Repeat(EMPTY, BAR_WIDTH - f)[i - f];
      }
    }
  }

  /** A higher percentage never fills fewer cells; an empty gauge fills none and a full one
      fills all fifteen. */
  lemma FilledMono(p: real, q: real)
    requires p <= q
    ensures Filled(p) <= Filled(q)
    ensures Filled(0.0) == 0 && Filled(100.0) == BAR_WIDTH
  {
    TruncMono(p / 100.0 * 15.0, q / 100.0 * 15.0);
    assert 100.0 / 100.0 * 15.0 == 15.0;
    assert Trunc(15.0) == 15;
  }

  /** The colour of the bar: red above 85, yellow above 60, otherwise the caller's. */
  function BarColor(percent: real, color: string): (c: string)
    ensures c == "red" <==> percent > 85.0 || (percent <= 60.0 && color == "red")
    ensures c == "yellow" <==> (60.0 < percent <= 85.0) || (percent <= 60.0 && color == "yellow")
    ensures percent <= 60.0 ==> c == color
  {
    if percent > 85.0 then "red"
    else if percent > 60.0 then "yellow"
    else color
  }

  /** The rich markup `f"[{tag}]{body}[/{tag}]"`. */
  function Markup(tag: string, body: string): string {
    "[" + tag + "]" + body + "[/" + tag + "]"
  }

  /** `get_bar(percent, color)`. */
  function GetBar(percent: real, color: string): string {
    Markup(BarColor(percent, color), Bar(percent))
  }

  /** The first index at or after `from` holding `]`, or `|s|`. */
  function CloseFrom(s: string, from: nat): (k: nat)
    requires from <= |s|
    ensures from <= k <= |s| && (k < |s| ==> s[k] == ']')
    ensures forall j :: from <= j < k ==> s[j] != ']'
    decreases |s| - from
  {
    if from == |s| || s[from] == ']' then from else CloseFrom(s, from + 1)
  }

  /** Reading a markup string back: the tag up to the first `]` and the body before the
      matching closing tag, or `None` when the text is not of that form. */
  function Unwrap(s: string): Option<(string, string)> {
    if s == [] || s[0] != '[' then None
    else
      var k := CloseFrom(s, 1);
      if k == |s| then None
      else
        var tag, rest := s[1..k], s[k + 1..];
        var close := "[/" + tag + "]";
        if |close| <= |rest| && rest[|rest| - |close|..] == close then Some((tag, rest[..|rest| - |close|]))
        else None
  }

  /** A tag without `]` and any body read back from their markup. */
  lemma MarkupRoundTrip(tag: string, body: string)
    requires ']' !in tag
    ensures Unwrap(Markup(tag, body)) == Some((tag, body))
  {
    var s := Markup(tag, body);
    var k := |tag| + 1;
    var close := "[/" + tag + "]";
    var rest := body + close;
    assert s == "[" + tag + "]" + rest;
    assert s[k] == ']';
    assert forall j :: 1 <= j < k ==> s[j] == tag[j - 1];
    CloseAt(s, 1, k);
    assert s[1..k] == tag;
    assert s[k + 1..] == rest;
    assert rest[|rest| - |close|..] == close;
    assert rest[..|rest| - |close|] == body;
  }

  /** The first `]` at or after `from` is the one at `k` when none comes before it. */
  lemma CloseAt(s: string, from: nat, k: nat)
    requires from <= k < |s| && s[k] == ']' && forall j :: from <= j < k ==> s[j] != ']'
    ensures CloseFrom(s, from) == k
  {
  }

  /** `get_bar` wraps the bar in its colour: reading the markup back gives the colour and
      the bar, for any caller colour without `]` (the dashboard passes green, blue, red and
      cyan). */
  lemma GetBarReadsBack(percent: real, color: string)
    requires ']' !in color
    ensures Unwrap(GetBar(percent, color)) == Some((BarColor(percent, color), Bar(percent)))
  {
    MarkupRoundTrip(BarColor(percent, color), Bar(percent));
  }

  // ---------------------------------------------------------------- get_system_stats

  /** The uptime of `get_system_stats`: `divmod(int(seconds), 3600)` and the minutes of the
      remainder. Python's `divmod` by a positive number rounds down, as Dafny's `/` does. */
  function Uptime(seconds: real): (hm: (int, int)) {
    var total := Trunc(seconds);
    (total / 3600, (total % 3600) / 60)
  }

  /** The hours and minutes account for the whole uptime but the last minute: the minutes
      lie in [0, 59] and `hours * 3600 + minutes * 60` is the largest multiple of 60 not
      above the truncated seconds. */
  lemma UptimeSpec(seconds: real)
    ensures var (h, m) := Uptime(seconds);
      0 <= m < 60 && h * 3600 + m * 60 <= Trunc(seconds) < h * 3600 + m * 60 + 60
    ensures seconds >= 0.0 ==> Uptime(seconds).0 >= 0
  {
  }

  /** The `uptime` text `f"{hours}h {minutes}m"`. */
  function UptimeText(seconds: real): string {
    var (h, m) := Uptime(seconds);
    IntStr(h) + "h " + IntStr(m) + "m"
  }

  /** The dict `get_system_stats` returns, without the two percentages it copies. */
  datatype SystemStats = SystemStats(uptime: string, ramBar: string, diskBar: string)

  /** `get_system_stats` for the uptime in seconds and the memory and disk percentages. */
  function GetSystemStats(uptimeSeconds: real, ramPct: real, diskPct: real): (r: SystemStats) {
    SystemStats(UptimeText(uptimeSeconds), GetBar(ramPct, "green"), GetBar(diskPct, "blue"))
  }

  /** The memory bar is green and the disk bar blue until the usage passes 60. */
  lemma SystemStatsColors(uptimeSeconds: real, ramPct: real, diskPct: real)
    ensures var r := GetSystemStats(uptimeSeconds, ramPct, diskPct);
      Unwrap(r.ramBar) == Some((BarColor(ramPct, "green"), Bar(ramPct)))
      && Unwrap(r.diskBar) == Some((BarColor(diskPct, "blue"), Bar(diskPct)))
      && (ramPct <= 60.0 ==> BarColor(ramPct, "green") == "green")
      && (diskPct <= 60.0 ==> BarColor(diskPct, "blue") == "blue")
  {
    GetBarReadsBack(ramPct, "green");
    GetBarReadsBack(diskPct, "blue");
  }

  // ---------------------------------------------------------------- get_power_stats

  /** psutil's `POWER_TIME_UNLIMITED` and `POWER_TIME_UNKNOWN`. */
  const POWER_TIME_UNLIMITED: int := -2
  const POWER_TIME_UNKNOWN: int := -1

  /** What `psutil.sensors_battery()` reports. */
  datatype Battery = Battery(percent: real, secsleft: int, plugged: bool)

  /** The icons: a bolt when plugged in, a battery otherwise. */
  const PLUGGED_ICON: string := "\U{26A1}"
  const BATTERY_ICON: string := "\U{1F50B}"

  /** The colour of the battery bar: green when plugged in, else red below 20 and cyan
      otherwise. */
  function BatteryColor(b: Battery): (c: string)
    ensures c == "green" <==> b.plugged
    ensures c == "red" <==> !b.plugged && b.percent < 20.0
    ensures c == "cyan" <==> !b.plugged && b.percent >= 20.0
  {
    if b.plugged then "green" else if b.percent < 20.0 then "red" else "cyan"
  }

  /** The sign of the wattage: `+` while charging, `-` otherwise. */
  function DrawSymbol(b: Battery): (c: string)
    ensures c == "+" <==> b.plugged
    ensures c == "-" <==> !b.plugged
  {
    if b.plugged then "+" else "-"
  }

  function Icon(b: Battery): (c: string)
    ensures c == PLUGGED_ICON <==> b.plugged
    ensures c == BATTERY_ICON <==> !b.plugged
  {
    if b.plugged then PLUGGED_ICON else BATTERY_ICON
  }

  /** `str(timedelta(seconds=s))`: `"D day(s), "` when the days are not zero, then
      `H:MM:SS`. The days round down, so a negative span reads as negative days and a
      positive time of day. */
  function TimedeltaStr(s: int): string {
    var days, rest := s / 86400, s % 86400;
    DayPrefix(days) + NatStr(rest / 3600) + ":" + ZeroPad2((rest % 3600) / 60) + ":" + ZeroPad2(rest % 60)
  }

  /** The day part of `str(timedelta)`; "day" is plural unless the days are 1 or -1. */
  function DayPrefix(days: int): string {
    if days == 0 then "" else IntStr(days) + " day" + (if days == 1 || days == -1 then "" else "s") + ", "
  }

  /** The `time` text: "∞" for an unlimited time, "?" for an unknown one, else the first two
      `:`-separated fields of the `timedelta` text. */
  function TimeLeft(secsleft: int): string {
    if secsleft == POWER_TIME_UNLIMITED then "\U{221E}"
    else if secsleft == POWER_TIME_UNKNOWN then "?"
    else
      var fields := SplitOn(TimedeltaStr(secsleft), ':');
      Join(":", fields[..Min(2, |fields|)])
  }

  /** A text of digits holds no `:`. */
  lemma DigitsNoColon(s: string)
    requires forall i :: 0 <= i < |s| ==> IsDigit(s[i])
    ensures ':' !in s
  {
  }

  /** Splitting a text without the separator leaves it whole. */
  lemma {:induction false} SplitNone(s: string, c: char)
    requires c !in s
    ensures SplitOn(s, c) == [s]
    decreases |s|
  {
    if s != [] {
      SplitNone(s[1..], c);
      assert s == [s[0]] + s[1..];
    }
  }

  /** The day part holds no `:`. */
  lemma DayPrefixNoColon(days: int)
    ensures ':' !in DayPrefix(days)
  {
    if days != 0 {
      var n := if days < 0 then -days else days;
      DigitsNoColon(NatStr(n));
      assert ':' !in IntStr(days);
    }
  }

  /** The time left keeps the days and the hours and drops the seconds: it is the day
      part, the hours, `:` and the two-digit minutes of the time of day. */
  lemma TimeLeftFields(secsleft: int)
    requires secsleft != POWER_TIME_UNLIMITED && secsleft != POWER_TIME_UNKNOWN
    ensures var rest := secsleft % 86400;
      TimeLeft(secsleft) == DayPrefix(secsleft / 86400) + NatStr(rest / 3600) + ":" + ZeroPad2((rest % 3600) / 60)
  {
    var rest := secsleft % 86400;
    var head := DayPrefix(secsleft / 86400) + NatStr(rest / 3600);
    var mm, ss := ZeroPad2((rest % 3600) / 60), ZeroPad2(rest % 60);
    DayPrefixNoColon(secsleft / 86400);
    DigitsNoColon(NatStr(rest / 3600));
    DigitsNoColon(mm);
    DigitsNoColon(ss);
    assert TimedeltaStr(secsleft) == head + ":" + mm + ":" + ss;
    FirstTwoFields(head, mm, ss);
  }

  /** The first two fields of `a:b:c`, joined again, are `a:b`. */
  lemma FirstTwoFields(a: string, b: string, c: string)
    requires ':' !in a && ':' !in b && ':' !in c
    ensures var fields := SplitOn(a + ":" + b + ":" + c, ':');
      Join(":", fields[..Min(2, |fields|)]) == a + ":" + b
  {
    assert a + ":" + b + ":" + c == a + [':'] + (b + [':'] + c);
    SplitFirst(a, b + [':'] + c, ':');
    SplitFirst(b, c, ':');
    SplitNone(c, ':');
    var fields := SplitOn(a + ":" + b + ":" + c, ':');
    assert fields == [a, b, c];
    assert fields[..2] == [a, b];
  }

  /** Under a day of battery left, the time reads as hours and two-digit minutes, and those
      read back as the whole minutes left. */
  lemma TimeLeftReadsBack(secsleft: int)
    requires 0 <= secsleft < 86400
    ensures var t := TimeLeft(secsleft);
      var h := NatStr(secsleft / 3600);
      var mm := ZeroPad2((secsleft % 3600) / 60);
      t == h + ":" + mm && |mm| == 2
      && DigitsValue(h) * 60 + DigitsValue(mm) == secsleft / 60
  {
    TimeLeftFields(secsleft);
    assert secsleft / 86400 == 0 && secsleft % 86400 == secsleft;
    NatStrValue(secsleft / 3600);
    ZeroPad2Value((secsleft % 3600) / 60);
  }

  /** The dict `get_power_stats` returns when a battery exists, without the wattage. */
  datatype Power = Power(percent: real, bar: string, sign: string, time: string, icon: string)

  /** `get_power_stats`: nothing without a battery. */
  function GetPowerStats(battery: Option<Battery>): (r: Option<Power>)
    ensures r.None? <==> battery.None?
  {
    match battery
    case None => None
    case Some(b) => Some(Power(b.percent, GetBar(b.percent, BatteryColor(b)), DrawSymbol(b), TimeLeft(b.secsleft), Icon(b)))
  }

  /** The battery bar carries the battery colour unless the charge passes 60; a battery
      running low (below 20, unplugged) shows a red bar. */
  lemma PowerBar(b: Battery)
    ensures var p := GetPowerStats(Some(b)).value;
      Unwrap(p.bar) == Some((BarColor(b.percent, BatteryColor(b)), Bar(b.percent)))
      && (!b.plugged && b.percent < 20.0 ==> BarColor(b.percent, BatteryColor(b)) == "red")
      && (b.plugged && b.percent <= 60.0 ==> BarColor(b.percent, BatteryColor(b)) == "green")
  {
    GetBarReadsBack(b.percent, BatteryColor(b));
  }

  // ---------------------------------------------------------------- get_weather_data

  const SUN: string := "\U{2600}\U{FE0F}"
  const CLOUD: string := "\U{2601}\U{FE0F}"
  const FOG: string := "\U{1F32B}\U{FE0F}"
  const RAIN: string := "\U{1F327}\U{FE0F}"
  const SNOW: string := "\U{2744}\U{FE0F}"
  const STORM: string := "\U{26A1}"
  const UNKNOWN: string := "qm"

  /** The weather icon for a WMO weather code: the first test that holds. */
  function WeatherIcon(code: int): string {
    if code == 0 then SUN
    else if code in [1, 2, 3] then CLOUD
    else if code in [45, 48] then FOG
    else if 51 <= code <= 67 then RAIN
    else if 71 <= code <= 77 then SNOW
    else if code >= 95 then STORM
    else UNKNOWN
  }

  /** The tests do not overlap, so each icon stands for exactly its own codes. */
  lemma WeatherIconSpec(code: int)
    ensures WeatherIcon(code) == SUN <==> code == 0
    ensures WeatherIcon(code) == CLOUD <==> 1 <= code <= 3
    ensures WeatherIcon(code) == FOG <==> code == 45 || code == 48
    ensures WeatherIcon(code) == RAIN <==> 51 <= code <= 67
    ensures WeatherIcon(code) == SNOW <==> 71 <= code <= 77
    ensures WeatherIcon(code) == STORM <==> code >= 95
    ensures WeatherIcon(code) == UNKNOWN <==>
      !(0 <= code <= 3 || code == 45 || code == 48 || 51 <= code <= 67 || 71 <= code <= 77 || code >= 95)
  {
    assert SUN[0] != CLOUD[0] && SUN[0] != FOG[0] && SUN[0] != RAIN[0] && SUN[0] != SNOW[0];
    assert CLOUD[0] != FOG[0] && CLOUD[0] != RAIN[0] && CLOUD[0] != SNOW[0] && FOG[0] != RAIN[0];
    assert FOG[0] != SNOW[0] && RAIN[0] != SNOW[0];
    assert |STORM| == 1 && |UNKNOWN| == 2 && |SUN| == 2;
    assert UNKNOWN[0] == 'q' && SUN[0] != 'q' && CLOUD[0] != 'q' && FOG[0] != 'q' && RAIN[0] != 'q' && SNOW[0] != 'q';
  }

  /** The parts of the forecast reply `get_weather_data` reads: the current weather code
      (absent when the reply has none), the temperature as Python prints it and the
      sunrise and sunset lists (absent when the reply has none). */
  datatype Reading = Reading(code: Option<int>, temp: string, sunrise: Option<seq<string>>, sunset: Option<seq<string>>)

  datatype Weather = Weather(desc: string, solar: string)

  /** `s[-5:]`. */
  function Last5(s: string): (r: string)
    ensures |r| == Min(5, |s|) && r == s[|s| - |r|..]
  {
    if |s| <= 5 then s else s[|s| - 5..]
  }

  /** `daily.get(key, ["?"])[0][-5:]`: `None` stands for the `IndexError` of an empty
      list. */
  function Clock(times: Option<seq<string>>): Option<string> {
    match times
    case None => Some("?")
    case Some(ts) => if ts == [] then None else Some(Last5(ts[0]))
  }

  /** `get_weather_data` for the reply, `None` when the request fails. Every exception
      (the request, an empty list, comparing a missing code with a number) gives "ERR". */
  function GetWeatherData(reply: Option<Reading>): (w: Weather) {
    match reply
    case None => Weather("ERR", "ERR")
    case Some(r) =>
      var sunrise, sunset := Clock(r.sunrise), Clock(r.sunset);
      if sunrise.None? || sunset.None? then Weather("ERR", "ERR")
      else match r.code
        case None => Weather("ERR", "ERR")
        case Some(code) =>
          Weather(WeatherIcon(code) + " " + r.temp + "\U{B0}C",
                  "\U{1F305} " + sunrise.value + " | \U{1F307} " + sunset.value)
  }

  /** The weather reads "ERR" exactly when the request fails, the reply has no weather code
      or a sunrise or sunset list is empty; otherwise it starts with the icon of the
      code. */
  lemma WeatherSpec(reply: Option<Reading>)
    ensures var w := GetWeatherData(reply);
      (w == Weather("ERR", "ERR")) <==>
        (reply.None? || reply.value.code.None? || reply.value.sunrise == Some([]) || reply.value.sunset == Some([]))
    ensures reply.Some? && reply.value.code.Some? && reply.value.sunrise != Some([]) && reply.value.sunset != Some([]) ==>
      var icon := WeatherIcon(reply.value.code.value);
      GetWeatherData(reply).desc[..|icon|] == icon
  {
    if reply.Some? && reply.value.code.Some? && reply.value.sunrise != Some([]) && reply.value.sunset != Some([]) {
      var r := reply.value;
      var w := GetWeatherData(reply);
      assert w.solar[0] == '\U{1F305}';
      var icon := WeatherIcon(r.code.value);
      assert w.desc == icon + (" " + r.temp + "\U{B0}C");
    }
  }
}
