/** Quiet hours in Indian Standard Time (src/lib/quietHours.ts). Instants are milliseconds since the Unix epoch. */
module IstClock {

  const MINUTE_MS: int := 60_000
  const DAY_MS: int := 1_440 * MINUTE_MS
  /** IST is UTC+05:30 all year round. */
  const IST_OFFSET_MS: int := 330 * MINUTE_MS

  /** A window edge: minutes since IST midnight, as parsed from `HH:MM`. */
  type MinuteOfDay = m: int | 0 <= m < 1_440

  /** The IST calendar day of an instant, counted from 1970-01-01. */
  function IstDay(t: int): int {
    (t + IST_OFFSET_MS) / DAY_MS
  }

  function IstMinutesOfDay(t: int): (m: MinuteOfDay) {
    ((t + IST_OFFSET_MS) % DAY_MS) / MINUTE_MS
  }

  /** The instant of `minute` on IST day `day`; days beyond a month's end roll over, as in `Date.UTC`. */
  function MakeIstInstant(day: int, minute: int): int {
    day * DAY_MS + minute * MINUTE_MS - IST_OFFSET_MS
  }

  function StartOfTodayIST(now: int): (t: int)
    ensures t <= now < t + DAY_MS
    ensures IstDay(t) == IstDay(now) && IstMinutesOfDay(t) == 0
  {
    MakeIstInstant(IstDay(now), 0)
  }

  predicate IsQuietHours(now: int, start: MinuteOfDay, end: MinuteOfDay) {
    var nowMin := IstMinutesOfDay(now);
    if start == end then false
    else if start < end then start <= nowMin < end
    else nowMin >= start || nowMin < end
  }

  /** The next instant at `end`; the start of the window is not consulted. */
  function NextAllowedAt(now: int, end: MinuteOfDay): (t: int)
    ensures now < t
  {
    var candidate := MakeIstInstant(IstDay(now), end);
    if candidate <= now then MakeIstInstant(IstDay(now) + 1, end) else candidate
  }

  /** True from IST midnight up to, but not including, `minute`. */
  predicate IsBeforeIST(now: int, minute: MinuteOfDay) {
    IstMinutesOfDay(now) < minute
  }

  /** An instant made from a day and a minute of the day reads back as that day and minute. */
  lemma InstantReadsBack(day: int, minute: MinuteOfDay)
    ensures IstDay(MakeIstInstant(day, minute)) == day
    ensures IstMinutesOfDay(MakeIstInstant(day, minute)) == minute
  {
    assert MakeIstInstant(day, minute) + IST_OFFSET_MS == day * DAY_MS + minute * MINUTE_MS;
    assert 0 <= minute * MINUTE_MS < DAY_MS;
  }

  /**
   * Indian time on two instants of the Unix clock: the epoch is 05:30 in India, and the second of January begins there
   * when it is 18:30 on the first in Greenwich.
   */
  lemma EpochInIndia()
    ensures IstDay(0) == 0 && IstMinutesOfDay(0) == 5 * 60 + 30
    ensures var t := (18 * 60 + 30) * 60_000;
            && IstDay(t) == 1 && IstMinutesOfDay(t) == 0
            && IstDay(t - 1) == 0 && IstMinutesOfDay(t - 1) == 23 * 60 + 59
  {
  }

  lemma ReadsAs(day: int, o: int)
    requires 0 <= o < 24 * 60 * 60 * 1_000
    ensures IstDay(day * (24 * 60 * 60 * 1_000) + o - IST_OFFSET_MS) == day
    ensures IstMinutesOfDay(day * (24 * 60 * 60 * 1_000) + o - IST_OFFSET_MS) == o / (60 * 1_000)
  {
  }

  /** An IST day is 24 hours of 60 minutes of 60 seconds, wherever it begins. */
  lemma NextDaySameMinute(t: int)
    ensures IstDay(t + 24 * 60 * 60 * 1_000) == IstDay(t) + 1
    ensures IstMinutesOfDay(t + 24 * 60 * 60 * 1_000) == IstMinutesOfDay(t)
  {
    var o := t + IST_OFFSET_MS - IstDay(t) * DAY_MS;
    ReadsAs(IstDay(t), o);
    ReadsAs(IstDay(t) + 1, o);
  }

  lemma NextMinute(t: int)
    ensures IstMinutesOfDay(t + 60 * 1_000) == (IstMinutesOfDay(t) + 1) % (24 * 60)
  {
    var o := t + IST_OFFSET_MS - IstDay(t) * DAY_MS;
    ReadsAs(IstDay(t), o);
    if o + MINUTE_MS < DAY_MS {
      ReadsAs(IstDay(t), o + MINUTE_MS);
    } else {
      ReadsAs(IstDay(t) + 1, o + MINUTE_MS - DAY_MS);
    }
  }

  /** Days are contiguous half-open intervals, so comparing days compares midnights. */
  lemma SameDayIff(t: int, now: int)
    ensures IstDay(t) >= IstDay(now) <==> t >= StartOfTodayIST(now)
    ensures t <= now ==> IstDay(t) <= IstDay(now)
  {
  }

  /**
   * From a quiet instant, `NextAllowedAt` is the LEAST later instant that is not quiet — for a plain window and
   * for one that wraps midnight.
   */
  lemma NextAllowedIsLeast(now: int, start: MinuteOfDay, end: MinuteOfDay)
    requires IsQuietHours(now, start, end)
    ensures now < NextAllowedAt(now, end)
    ensures !IsQuietHours(NextAllowedAt(now, end), start, end)
    ensures forall t :: now <= t < NextAllowedAt(now, end) ==> IsQuietHours(t, start, end)
  {
    InstantReadsBack(IstDay(now), end);
    InstantReadsBack(IstDay(now) + 1, end);
    forall t | now <= t < NextAllowedAt(now, end)
      ensures IsQuietHours(t, start, end)
    {
      QuietUntilNextAllowed(now, t, start, end);
    }
  }

  lemma QuietUntilNextAllowed(now: int, t: int, start: MinuteOfDay, end: MinuteOfDay)
    requires IsQuietHours(now, start, end)
    requires now <= t < NextAllowedAt(now, end)
    ensures IsQuietHours(t, start, end)
  {
    var day := IstDay(now);
    var offset, o := now + IST_OFFSET_MS - day * DAY_MS, t + IST_OFFSET_MS - day * DAY_MS;
    if o < DAY_MS {
      assert IstDay(t) == day && IstMinutesOfDay(t) == o / MINUTE_MS;
    } else {
      assert IstDay(t) == day + 1 && IstMinutesOfDay(t) == (o - DAY_MS) / MINUTE_MS;
    }
  }

  /**
   * From an instant that is not quiet, the window next opens at the next `start` and closes at the `end` after that: up
   * to then, an instant is quiet exactly when the window has opened.
   */
  lemma QuietOnceOpened(now: int, t: int, start: MinuteOfDay, end: MinuteOfDay)
    requires start != end && !IsQuietHours(now, start, end)
    requires now <= t < NextAllowedAt(NextAllowedAt(now, start), end)
    ensures IsQuietHours(t, start, end) <==> NextAllowedAt(now, start) <= t
  {
    var opens := NextAllowedAt(now, start);
    Complement(now, start, end);
    Complement(t, start, end);
    Complement(opens, start, end);
    NextAllowedIsLeast(now, end, start);
    if opens <= t {
      QuietUntilNextAllowed(opens, t, start, end);
    } else {
      QuietUntilNextAllowed(now, t, end, start);
    }
  }

  /** Outside the window from `start` to `end` is inside the one from `end` to `start`. */
  lemma Complement(t: int, start: MinuteOfDay, end: MinuteOfDay)
    requires start != end
    ensures IsQuietHours(t, end, start) <==> !IsQuietHours(t, start, end)
  {
  }
}
