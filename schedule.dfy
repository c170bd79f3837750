/**
 * The post scheduler of the Telegram agent: when the next post is due and
 * whether "now" lies in the due window.
 *
 * A wall-clock instant in the agent's time zone (Europe/Moscow, a fixed
 * offset) is an integer count of microseconds since a local midnight, so
 * the calendar day of `t` is `t / DayMicros` (Dafny's division floors,
 * as calendar days do) and its time of day is `t % DayMicros`.
 */
module Schedule {
  import opened Wrappers

  const SecondMicros: int := 1_000_000
  const DayMicros: int := 86_400_000_000
  /** The due window: a post is due when strictly less than 300 s away from its slot. */
  const DueWindowMicros: int := 300_000_000
  /** The scheduler sleeps 60 s between two polls. */
  const PollMicros: int := 60_000_000

  /** The time of day at which posts go out and the number of days between posts. */
  datatype Policy = Policy(hour: int, minute: int, intervalDays: int)

  predicate ValidPolicy(p: Policy) {
    0 <= p.hour <= 23 && 0 <= p.minute <= 59 && p.intervalDays >= 1
  }

  /** The agent's hard-coded POST_TIME 10:00 and POST_INTERVAL_DAYS 3. */
  const SourcePolicy: Policy := Policy(10, 0, 3)

  function Day(t: int): int { t / DayMicros }

  function TimeOfDay(t: int): int { t % DayMicros }

  /** Microseconds from midnight to the posting time. */
  function SlotOffset(p: Policy): (off: int)
    requires ValidPolicy(p)
    ensures 0 <= off < DayMicros
    ensures off % (60 * SecondMicros) == 0
    ensures off / (3600 * SecondMicros) == p.hour
    ensures (off / (60 * SecondMicros)) % 60 == p.minute
  {
    (p.hour * 3600 + p.minute * 60) * SecondMicros
  }

  /** An instant at the posting time of some day (seconds and microseconds zero). */
  predicate IsSlot(p: Policy, t: int)
    requires ValidPolicy(p)
  {
    TimeOfDay(t) == SlotOffset(p)
  }

  /** Every slot is its day's midnight plus the slot offset. */
  lemma SlotDecomposition(p: Policy, t: int)
    requires ValidPolicy(p) && IsSlot(p, t)
    ensures t == Day(t) * DayMicros + SlotOffset(p)
  {
  }

  /** An instant `d * DayMicros + o` with `0 <= o < DayMicros` lies on day `d`, at time `o`. */
  lemma DayOf(d: int, o: int)
    requires 0 <= o < DayMicros
    ensures Day(d * DayMicros + o) == d && TimeOfDay(d * DayMicros + o) == o
  {
    var t := d * DayMicros + o;
    var q, r := t / DayMicros, t % DayMicros;
    assert t == q * DayMicros + r;
    assert (q - d) * DayMicros == o - r;
  }

  /** `datetime.replace(hour, minute, second=0, microsecond=0)`: the same day at the posting time. */
  function ReplaceTime(p: Policy, t: int): (r: int)
    requires ValidPolicy(p)
    ensures Day(r) == Day(t) && IsSlot(p, r)
  {
    DayOf(Day(t), SlotOffset(p));
    Day(t) * DayMicros + SlotOffset(p)
  }

  /** `get_next_post_time`, with the clock reading passed in as `now`. */
  function NextPostTime(p: Policy, last: Option<int>, now: int): (r: int)
    requires ValidPolicy(p)
    ensures IsSlot(p, r)
    ensures last.None? ==> now < r <= now + DayMicros
    ensures last.Some? ==> Day(r) == Day(last.value) + p.intervalDays
  {
    match last
    case None =>
      var today := ReplaceTime(p, now);
      if today <= now then
        DayOf(Day(now) + 1, SlotOffset(p));
        today + DayMicros
      else today
    case Some(t) =>
      DayOf(Day(t) + p.intervalDays, TimeOfDay(t));
      ReplaceTime(p, t + p.intervalDays * DayMicros)
  }

  function Abs(x: int): int { if x < 0 then -x else x }

  /** `should_post_now`: `now` is strictly within the due window of the next post time, on either side. */
  predicate ShouldPostNow(p: Policy, last: Option<int>, now: int): (due: bool)
    requires ValidPolicy(p)
    ensures last.None? ==> (due <==> NextPostTime(p, None, now) - DueWindowMicros < now)
    ensures last.Some? ==>
      var next := NextPostTime(p, last, last.value);
      (due <==> next - DueWindowMicros < now < next + DueWindowMicros)
  {
    Abs(now - NextPostTime(p, last, now)) < DueWindowMicros
  }

  // ---------------------------------------------------------------------
  // No post yet

  /** With no post yet, the next post time is the first slot strictly after `now`. */
  lemma FirstPostIsNextSlot(p: Policy, now: int)
    requires ValidPolicy(p)
    ensures var r := NextPostTime(p, None, now);
      IsSlot(p, r) && now < r &&
      forall x :: IsSlot(p, x) && now < x ==> r <= x
  {
    var r := NextPostTime(p, None, now);
    var today := ReplaceTime(p, now);
    SlotDecomposition(p, today);
    forall x | IsSlot(p, x) && now < x
      ensures r <= x
    {
      SlotDecomposition(p, x);
      assert now < (Day(now) + 1) * DayMicros;
      if today > now {
        assert Day(x) >= Day(now);
      } else {
        assert Day(x) >= Day(now) + 1;
      }
    }
  }

  /**
   * With no post yet, the next post time is today's slot when that is still
   * ahead of `now` and tomorrow's otherwise.
   */
  lemma FirstPostTodayOrTomorrow(p: Policy, now: int)
    requires ValidPolicy(p)
    ensures TimeOfDay(now) < SlotOffset(p) ==> Day(NextPostTime(p, None, now)) == Day(now)
    ensures TimeOfDay(now) >= SlotOffset(p) ==> Day(NextPostTime(p, None, now)) == Day(now) + 1
  {
    var r := NextPostTime(p, None, now);
    DayOf(Day(now), TimeOfDay(now));
    DayOf(Day(now), SlotOffset(p));
    SlotDecomposition(p, r);
    assert Day(now) * DayMicros <= now < (Day(now) + 1) * DayMicros;
    if TimeOfDay(now) < SlotOffset(p) {
      assert r == ReplaceTime(p, now);
    } else {
      assert r == ReplaceTime(p, now) + DayMicros;
    }
  }

  /**
   * With no post yet the window is open only BEFORE the next slot: it is due
   * exactly when the next slot is less than 300 s ahead.
   */
  lemma FirstPostWindowBeforeSlot(p: Policy, now: int)
    requires ValidPolicy(p)
    ensures ShouldPostNow(p, None, now) <==> NextPostTime(p, None, now) - DueWindowMicros < now
    ensures ShouldPostNow(p, None, now) ==> now < NextPostTime(p, None, now)
  {
  }

  /**
   * When the posting time is at least 300 s after midnight (10:00 is), the
   * first post is due exactly in the open interval of 300 s before today's
   * slot; at or after the slot the target has moved to tomorrow.
   */
  lemma FirstPostWindowSameDay(p: Policy, now: int)
    requires ValidPolicy(p) && SlotOffset(p) >= DueWindowMicros
    ensures var today := ReplaceTime(p, now);
      ShouldPostNow(p, None, now) <==> today - DueWindowMicros < now < today
  {
    var today := ReplaceTime(p, now);
    SlotDecomposition(p, today);
    assert now < (Day(now) + 1) * DayMicros;
  }

  /**
   * Polls need not be on an exact 60 s grid: when one poll is at or before a
   * slot's window opens and the next one follows less than 300 s later but
   * after the window opened, the later poll is in the window and due.
   */
  lemma ConsecutivePollsHitFirstWindow(p: Policy, a: int, b: int, slot: int)
    requires ValidPolicy(p) && IsSlot(p, slot)
    requires a <= slot - DueWindowMicros < b < a + DueWindowMicros
    ensures NextPostTime(p, None, b) == slot
    ensures ShouldPostNow(p, None, b)
  {
    var r := NextPostTime(p, None, b);
    FirstPostIsNextSlot(p, b);
    assert slot - DueWindowMicros < b < r <= slot;
    SlotDecomposition(p, r);
    SlotDecomposition(p, slot);
    assert (Day(slot) - Day(r)) * DayMicros == slot - r;
  }

  /**
   * Polling every 60 s from any instant at or before the window of a slot
   * opens lands a poll in that window, where the first post is due.
   */
  lemma PollingHitsFirstWindow(p: Policy, start: int, slot: int) returns (k: nat)
    requires ValidPolicy(p) && IsSlot(p, slot)
    requires start <= slot - DueWindowMicros
    ensures slot - DueWindowMicros < start + k * PollMicros < slot
    ensures NextPostTime(p, None, start + k * PollMicros) == slot
    ensures ShouldPostNow(p, None, start + k * PollMicros)
  {
    var j := (slot - DueWindowMicros - start) / PollMicros;
    assert j * PollMicros <= slot - DueWindowMicros - start < j * PollMicros + PollMicros;
    k := j + 1;
    ConsecutivePollsHitFirstWindow(p, start + j * PollMicros, start + k * PollMicros, slot);
  }

  // ---------------------------------------------------------------------
  // After a post

  /**
   * After a post at `t` the next post time is fixed by `t` alone, falls on a
   * later calendar day, and is strictly later than `t`.
   */
  lemma NextAfterPostIsLater(p: Policy, t: int, now: int)
    requires ValidPolicy(p)
    ensures NextPostTime(p, Some(t), now) == NextPostTime(p, Some(t), t)
    ensures Day(NextPostTime(p, Some(t), now)) > Day(t)
    ensures (p.intervalDays - 1) * DayMicros + SlotOffset(p) < NextPostTime(p, Some(t), now) - t
    ensures NextPostTime(p, Some(t), now) - t <= p.intervalDays * DayMicros + SlotOffset(p)
  {
    var r := NextPostTime(p, Some(t), now);
    SlotDecomposition(p, r);
    DayOf(Day(t), TimeOfDay(t));
    assert r == (Day(t) + p.intervalDays) * DayMicros + SlotOffset(p);
  }

  /** After a post, it is due exactly in the open interval of 300 s on either side of the next post time. */
  lemma PostedWindow(p: Policy, t: int, now: int)
    requires ValidPolicy(p)
    ensures var due := NextPostTime(p, Some(t), t);
      ShouldPostNow(p, Some(t), now) <==> due - DueWindowMicros < now < due + DueWindowMicros
  {
    NextAfterPostIsLater(p, t, now);
  }

  /** Exactly 300 s from the next post time is not due; one microsecond less is. */
  lemma DueWindowIsStrict(p: Policy, t: int)
    requires ValidPolicy(p)
    ensures var due := NextPostTime(p, Some(t), t);
      && !ShouldPostNow(p, Some(t), due - DueWindowMicros)
      && !ShouldPostNow(p, Some(t), due + DueWindowMicros)
      && ShouldPostNow(p, Some(t), due - DueWindowMicros + 1)
      && ShouldPostNow(p, Some(t), due + DueWindowMicros - 1)
  {
    var due := NextPostTime(p, Some(t), t);
    PostedWindow(p, t, due - DueWindowMicros);
    PostedWindow(p, t, due + DueWindowMicros);
    PostedWindow(p, t, due - DueWindowMicros + 1);
    PostedWindow(p, t, due + DueWindowMicros - 1);
  }

  /**
   * No catch-up: once `now` is 300 s or more past the next post time, no
   * later instant is ever due again.
   */
  lemma NoCatchUp(p: Policy, t: int, now: int, later: int)
    requires ValidPolicy(p)
    requires now >= NextPostTime(p, Some(t), now) + DueWindowMicros
    requires later >= now
    ensures !ShouldPostNow(p, Some(t), later)
  {
    NextAfterPostIsLater(p, t, now);
    NextAfterPostIsLater(p, t, later);
  }

  // ---------------------------------------------------------------------
  // The agent's own constants: 10:00, every 3 days

  /**
   * On day `d`: at 09:00 with no post the next post is 10:00 the same day; at
   * 11:00 it is 10:00 the next day; after a post at 10:00 it is 10:00 three
   * days later, whatever the time of the check.
   */
  lemma SourceScenarios(d: int, now: int)
    ensures NextPostTime(SourcePolicy, None, d * DayMicros + 9 * 3600 * SecondMicros)
      == d * DayMicros + 10 * 3600 * SecondMicros
    ensures NextPostTime(SourcePolicy, None, d * DayMicros + 11 * 3600 * SecondMicros)
      == (d + 1) * DayMicros + 10 * 3600 * SecondMicros
    ensures NextPostTime(SourcePolicy, Some(d * DayMicros + 10 * 3600 * SecondMicros), now)
      == (d + 3) * DayMicros + 10 * 3600 * SecondMicros
  {
    DayOf(d, 9 * 3600 * SecondMicros);
    DayOf(d, 11 * 3600 * SecondMicros);
    DayOf(d, 10 * 3600 * SecondMicros);
    DayOf(d + 3, 10 * 3600 * SecondMicros);
  }
}
