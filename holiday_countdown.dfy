/** scripts/bin/holiday_countdown.py: picking the next holiday and counting down to it.
    Instants are whole microseconds (the resolution of `datetime`), a date is its day
    number and a holiday date stands for its midnight. The holiday calendar, the current
    time and the clock readings of the loop arrive as parameters; printing and sleeping
    are left out. */
module HolidayCountdown {
  import opened PyNum
  import opened PySort
  import opened PyStr

  const US_PER_SECOND: int := 1000000
  const SECONDS_PER_DAY: int := 86400
  const US_PER_DAY: int := SECONDS_PER_DAY * US_PER_SECOND

  /** An entry of the holiday calendar: a date, as its day number, and a name. */
  datatype Holiday = Holiday(day: int, name: string)

  /** An entry of `upcoming`: the holiday's midnight and its name. */
  datatype Entry = Entry(at: int, name: string)

  /** `datetime(date.year, date.month, date.day)`: the midnight opening the day. */
  function Midnight(day: int): int {
    day * US_PER_DAY
  }

  function EntryOf(h: Holiday): Entry {
    Entry(Midnight(h.day), h.name)
  }

  /** The holiday is still ahead: `h_date > now`. */
  predicate Ahead(h: Holiday, now: int) {
    Midnight(h.day) > now
  }

  /** The sort key `lambda x: x[0]`. */
  function DateKey(e: Entry): Ext {
    Fin(e.at)
  }

  // ---------------------------------------------------------------- get_next_holiday

  /** The list `upcoming` after the loop over the calendar `hs`: the holidays ahead of
      `now`, in calendar order. */
  function Upcoming(hs: seq<Holiday>, now: int): (r: seq<Entry>)
    decreases |hs|
  {
    if hs == [] then []
    else
      var h := hs[|hs| - 1];
      Upcoming(hs[..|hs| - 1], now) + (if Ahead(h, now) then [EntryOf(h)] else [])
  }

  /** `upcoming` holds exactly the holidays ahead of `now`. */
  lemma {:induction false} UpcomingMembers(hs: seq<Holiday>, now: int)
    ensures forall e :: e in Upcoming(hs, now) <==> exists h :: h in hs && Ahead(h, now) && e == EntryOf(h)
    decreases |hs|
  {
    if hs != [] {
      var init, h := hs[..|hs| - 1], hs[|hs| - 1];
      UpcomingMembers(init, now);
      assert hs == init + [h];
      forall e ensures e in Upcoming(hs, now) <==> exists g :: g in hs && Ahead(g, now) && e == EntryOf(g) {
        if e in Upcoming(hs, now) && e !in Upcoming(init, now) {
          assert Ahead(h, now) && e == EntryOf(h);
        }
      }
    }
  }

  /** What `get_next_holiday` returns: the first entry of `upcoming` sorted by date, or
      `None` when it is empty. */
  function NextHoliday(hs: seq<Holiday>, now: int): Option<Entry> {
    var sorted := SortBy(Upcoming(hs, now), DateKey);
    if sorted == [] then None else Some(sorted[0])
  }

  /** The first element of a sorted sequence has the least key. */
  lemma SortedFirst<T>(s: seq<T>, key: T -> Ext)
    requires SortedBy(s, key) && s != []
    ensures forall x :: x in s ==> Le(key(s[0]), key(x))
  {
    forall x | x in s ensures Le(key(s[0]), key(x)) {
      var j :| 0 <= j < |s| && s[j] == x;
      if j == 0 {
        match key(x)
        case Fin(_) =>
        case PosInf =>
      }
    }
  }

  /** `get_next_holiday` gives `None` exactly when no holiday is ahead of `now`; otherwise
      it gives a holiday ahead of `now` whose midnight comes no later than any other's. */
  lemma NextHolidaySpec(hs: seq<Holiday>, now: int)
    ensures NextHoliday(hs, now).None? <==> forall h :: h in hs ==> !Ahead(h, now)
    ensures NextHoliday(hs, now).Some? ==>
      var e := NextHoliday(hs, now).value;
      e.at > now && (exists h :: h in hs && Ahead(h, now) && e == EntryOf(h))
      && forall h :: h in hs && Ahead(h, now) ==> e.at <= Midnight(h.day)
  {
    var u := Upcoming(hs, now);
    var sorted := SortBy(u, DateKey);
    UpcomingMembers(hs, now);
    assert forall e :: e in sorted <==> e in u by {
      assert multiset(sorted) == multiset(u);
      forall e ensures e in sorted <==> e in u {
        assert e in sorted <==> e in multiset(sorted);
        assert e in u <==> e in multiset(u);
      }
    }
    if sorted == [] {
      forall h | h in hs ensures !Ahead(h, now) {
        assert Ahead(h, now) ==> EntryOf(h) in u;
      }
    } else {
      SortBySorted(u, DateKey);
      SortedFirst(sorted, DateKey);
      assert sorted[0] in u;
      forall h | h in hs && Ahead(h, now) ensures sorted[0].at <= Midnight(h.day) {
        assert EntryOf(h) in sorted;
        assert Le(DateKey(sorted[0]), DateKey(EntryOf(h)));
      }
    }
  }

  /** `get_next_holiday()` for the calendar entries `hs`, in the order `items()` lists
      them, and the current time `now`. */
  method GetNextHoliday(hs: seq<Holiday>, now: int) returns (r: Option<Entry>)
    ensures r == NextHoliday(hs, now)
    ensures r.None? <==> forall h :: h in hs ==> !Ahead(h, now)
    ensures r.Some? ==> r.value.at > now && forall h :: h in hs && Ahead(h, now) ==> r.value.at <= Midnight(h.day)
  {
    var upcoming: seq<Entry> := [];
    for i := 0 to |hs|
      invariant upcoming == Upcoming(hs[..i], now)
    {
      assert hs[..i + 1][..i] == hs[..i];
      var hDate := Midnight(hs[i].day);
      if hDate > now {
        upcoming := upcoming + [Entry(hDate, hs[i].name)];
      }
    }
    assert hs[..|hs|] == hs;
    upcoming := SortBy(upcoming, DateKey);
    r := if upcoming != [] then Some(upcoming[0]) else None;
    NextHolidaySpec(hs, now);
  }

  // ---------------------------------------------------------------- countdown: the start

  /** How `countdown` begins: it raises, it reports that no holiday was found, or it counts
      down to `target`. */
  datatype Opening = Raises | NotFound | Go(target: int, name: string)

  /** The start as written: `target_date, holiday_name = get_next_holiday()` unpacks the
      result before the `None` test, so a `None` result raises `TypeError`; a `datetime` is
      always true, so `not target_date` never holds. */
  function StartAsWritten(next: Option<Entry>): Opening {
    match next
    case None => Raises
    case Some(e) => Go(e.at, e.name)
  }

  /** The start the message at line 36 is for: testing the result before unpacking it. */
  function Start(next: Option<Entry>): Opening {
    match next
    case None => NotFound
    case Some(e) => Go(e.at, e.name)
  }

  /** With no holiday ahead (an empty calendar, say) the start as written raises where the
      corrected start reports that no holiday was found; the message is never reached as
      written. */
  lemma StartAsWrittenRaises(hs: seq<Holiday>, now: int)
    requires forall h :: h in hs ==> !Ahead(h, now)
    ensures StartAsWritten(NextHoliday(hs, now)) == Raises
    ensures Start(NextHoliday(hs, now)) == NotFound
    ensures forall next :: StartAsWritten(next) != NotFound
  {
    NextHolidaySpec(hs, now);
  }

  /** An empty calendar shows the difference. */
  lemma EmptyCalendar(now: int)
    ensures StartAsWritten(NextHoliday([], now)) == Raises && Start(NextHoliday([], now)) == NotFound
  {
    StartAsWrittenRaises([], now);
  }

  /** The corrected start reports "not found" exactly when no holiday is ahead, and
      otherwise counts down to the next holiday, as the start as written does. */
  lemma StartSpec(hs: seq<Holiday>, now: int)
    ensures Start(NextHoliday(hs, now)) == NotFound <==> forall h :: h in hs ==> !Ahead(h, now)
    ensures NextHoliday(hs, now).Some? ==>
      Start(NextHoliday(hs, now)) == StartAsWritten(NextHoliday(hs, now))
      && Start(NextHoliday(hs, now)).target > now
  {
    NextHolidaySpec(hs, now);
  }

  // ---------------------------------------------------------------- countdown: the loop

  /** The fields the loop prints: `remaining.days`, then `divmod` of `remaining.seconds`. */
  datatype Parts = Parts(days: int, hours: nat, minutes: nat, seconds: nat)

  /** The `divmod` steps: hours, then minutes and seconds of the remainder. */
  function Divmod(s: nat): (p: (nat, nat, nat)) {
    (s / 3600, (s % 3600) / 60, s % 60)
  }

  /** For a time of day in seconds the hours lie in [0, 23], the minutes and seconds in
      [0, 59], and together they make the time of day again. */
  lemma DivmodSpec(s: nat)
    requires s < SECONDS_PER_DAY
    ensures var (h, m, sec) := Divmod(s);
      h < 24 && m < 60 && sec < 60 && h * 3600 + m * 60 + sec == s
  {
  }

  /** A `timedelta` of `remaining` microseconds split as the loop prints it: whole days
      (rounded down, as `timedelta` normalises), then the seconds of the day. */
  function Decompose(remaining: int): Parts {
    var days := remaining / US_PER_DAY;
    var seconds := (remaining % US_PER_DAY) / US_PER_SECOND;
    var (h, m, s) := Divmod(seconds);
    Parts(days, h, m, s)
  }

  /** The printed fields account for every whole second remaining, and a positive span has
      no negative days. */
  lemma DecomposeSpec(remaining: int)
    ensures var p := Decompose(remaining);
      p.hours < 24 && p.minutes < 60 && p.seconds < 60
      && p.days * SECONDS_PER_DAY + p.hours * 3600 + p.minutes * 60 + p.seconds == remaining / US_PER_SECOND
      && (remaining > 0 ==> p.days >= 0)
  {
    var days := remaining / US_PER_DAY;
    var rest := remaining % US_PER_DAY;
    var seconds := rest / US_PER_SECOND;
    assert seconds < SECONDS_PER_DAY;
    DivmodSpec(seconds);
    assert remaining == days * US_PER_DAY + rest;
    assert rest == seconds * US_PER_SECOND + rest % US_PER_SECOND;
    assert remaining == (days * SECONDS_PER_DAY + seconds) * US_PER_SECOND + rest % US_PER_SECOND;
  }

  /** `f"{days}d {hours:02}h {minutes:02}m {seconds:02}s"`. */
  function TimeStr(p: Parts): string {
    IntStr(p.days) + "d " + ZeroPad2(p.hours) + "h " + ZeroPad2(p.minutes) + "m " + ZeroPad2(p.seconds) + "s"
  }

  /** The hours, minutes and seconds of a split span take two places each, at fixed
      places after the days, and read back as their values. */
  lemma TimeStrFields(remaining: int)
    ensures var p := Decompose(remaining);
      var t, d := TimeStr(p), |IntStr(p.days)|;
      |t| == d + 13 && t[..d] == IntStr(p.days)
      && t[d..d + 2] == "d " && t[d + 4..d + 6] == "h " && t[d + 8..d + 10] == "m " && t[d + 12] == 's'
      && DigitsValue(t[d + 2..d + 4]) == p.hours
      && DigitsValue(t[d + 6..d + 8]) == p.minutes
      && DigitsValue(t[d + 10..d + 12]) == p.seconds
  {
    DecomposeSpec(remaining);
    TimeStrLayout(Decompose(remaining));
  }

  /** The layout of the time string for fields below 100. */
  lemma TimeStrLayout(p: Parts)
    requires p.hours < 100 && p.minutes < 100 && p.seconds < 100
    ensures var t, d := TimeStr(p), |IntStr(p.days)|;
      |t| == d + 13 && t[..d] == IntStr(p.days)
      && t[d..d + 2] == "d " && t[d + 4..d + 6] == "h " && t[d + 8..d + 10] == "m " && t[d + 12] == 's'
      && DigitsValue(t[d + 2..d + 4]) == p.hours
      && DigitsValue(t[d + 6..d + 8]) == p.minutes
      && DigitsValue(t[d + 10..d + 12]) == p.seconds
  {
    ZeroPad2Value(p.hours);
    ZeroPad2Value(p.minutes);
    ZeroPad2Value(p.seconds);
    var ds, hh, mm, ss := IntStr(p.days), ZeroPad2(p.hours), ZeroPad2(p.minutes), ZeroPad2(p.seconds);
    var t := TimeStr(p);
    var d := |ds|;
    assert t == ds + "d " + hh + "h " + mm + "m " + ss + "s";
    assert t[..d] == ds;
    assert t[d + 2..d + 4] == hh;
    assert t[d + 6..d + 8] == mm;
    assert t[d + 10..d + 12] == ss;
  }

  /** How the loop ends: the holiday arrives, or the readings run out (the interrupt). */
  datatype Outcome = HappyHoliday | Interrupted

  /** The text the loop prints when `remaining` microseconds are left. */
  function Show(): int -> string {
    remaining => TimeStr(Decompose(remaining))
  }

  /** The `while True` loop of `countdown` for the target `target` and the successive
      readings `clock` of `datetime.now()`: it prints the split span while the remaining
      time is positive and stops at the first reading that leaves none. The readings
      running out stands for the keyboard interrupt. */
  method Countdown(target: int, clock: seq<int>) returns (frames: seq<string>, outcome: Outcome)
    ensures |frames| <= |clock|
    ensures forall j :: 0 <= j < |frames| ==> target - clock[j] > 0 && frames[j] == Show()(target - clock[j])
    ensures outcome == HappyHoliday ==> |frames| < |clock| && target - clock[|frames|] <= 0
    ensures outcome == Interrupted ==> |frames| == |clock|
    ensures outcome == HappyHoliday <==> exists i :: 0 <= i < |clock| && target - clock[i] <= 0
  {
    frames := [];
    var i := 0;
    while i < |clock|
      invariant i <= |clock| && |frames| == i
      invariant forall j :: 0 <= j < i ==> target - clock[j] > 0 && frames[j] == Show()(target - clock[j])
    {
      var now := clock[i];
      var remaining := target - now;
      if remaining <= 0 {
        outcome := HappyHoliday;
        return;
      }
      var timeStr := Show()(remaining);
      frames := frames + [timeStr];
      i := i + 1;
    }
    outcome := Interrupted;
  }
}
