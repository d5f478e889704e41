/** The weekly cron trigger of the briefing scheduler (search-crawler/scheduler.py,
    lines 85-90): fire on the listed weekdays at hour:minute, local time.

    Time is counted in whole minutes since a Monday 00:00 of the scheduler's
    fixed timezone, so the weekday of an instant is its day number modulo 7
    (0 = Monday, as in the source) and its time of day is the remainder
    modulo 1440. */
module CronClock {

  const MinutesPerDay: nat := 1440
  const MinutesPerWeek: nat := 10080

  type Instant = nat

  function WeekdayOf(t: Instant): nat {
    (t / MinutesPerDay) % 7
  }

  function MinuteOfDay(t: Instant): nat {
    t % MinutesPerDay
  }

  /** `CronTrigger(day_of_week=..., hour=..., minute=...)`. */
  datatype Trigger = Trigger(weekdays: seq<int>, hour: int, minute: int)

  /** What the trigger constructor accepts; any other value makes it raise. */
  predicate ValidTrigger(tr: Trigger) {
    && 0 <= tr.hour <= 23
    && 0 <= tr.minute <= 59
    && |tr.weekdays| > 0
    && forall i :: 0 <= i < |tr.weekdays| ==> 0 <= tr.weekdays[i] <= 6
  }

  function Slot(tr: Trigger): nat
    requires ValidTrigger(tr)
  {
    tr.hour * 60 + tr.minute
  }

  /** The trigger matches instant `t`. */
  predicate Fires(tr: Trigger, t: Instant)
    requires ValidTrigger(tr)
  {
    WeekdayOf(t) as int in tr.weekdays && MinuteOfDay(t) == Slot(tr)
  }

  /** Earliest instant at or after `now` that falls on weekday `w` at minute
      `slot` of the day. */
  function NextOnWeekday(w: nat, slot: nat, now: Instant): Instant
    requires w < 7 && slot < MinutesPerDay
  {
    var day := now / MinutesPerDay;
    var d := day + (w - day % 7) % 7;
    var c := d * MinutesPerDay + slot;
    if c >= now then c else c + MinutesPerWeek
  }

  lemma {:induction false} NextOnWeekdayIsLeast(w: nat, slot: nat, now: Instant, t: Instant)
    requires w < 7 && slot < MinutesPerDay
    ensures var r := NextOnWeekday(w, slot, now);
            && r >= now && r < now + MinutesPerWeek
            && WeekdayOf(r) == w && MinuteOfDay(r) == slot
            && (t >= now && WeekdayOf(t) == w && MinuteOfDay(t) == slot ==> r <= t)
  {
    var day := now / MinutesPerDay;
    var d := day + (w - day % 7) % 7;
    var c := d * MinutesPerDay + slot;
    assert d % 7 == w;
    assert d <= day + 6;
    assert c / MinutesPerDay == d && c % MinutesPerDay == slot;
    assert (c + MinutesPerWeek) / MinutesPerDay == d + 7;
    assert (c + MinutesPerWeek) % MinutesPerDay == slot;
    assert (d + 7) % 7 == w;
    if t >= now && WeekdayOf(t) == w && MinuteOfDay(t) == slot {
      var dt := t / MinutesPerDay;
      assert t == dt * MinutesPerDay + slot;
      assert dt >= day;
      assert dt % 7 == d % 7;
      assert dt >= d;
      if c < now {
        assert dt != d;
        assert dt >= d + 7;
      }
    }
  }

  /** Earliest instant at or after `now` at minute `slot` on one of `ws`. */
  function MinNext(ws: seq<int>, slot: nat, now: Instant): Instant
    requires |ws| > 0 && slot < MinutesPerDay
    requires forall i :: 0 <= i < |ws| ==> 0 <= ws[i] <= 6
  {
    var here := NextOnWeekday(ws[0] as nat, slot, now);
    if |ws| == 1 then here
    else
      var later := MinNext(ws[1..], slot, now);
      if here <= later then here else later
  }

  lemma {:induction false} MinNextIsLeast(ws: seq<int>, slot: nat, now: Instant, t: Instant)
    requires |ws| > 0 && slot < MinutesPerDay
    requires forall i :: 0 <= i < |ws| ==> 0 <= ws[i] <= 6
    ensures var r := MinNext(ws, slot, now);
            && now <= r < now + MinutesPerWeek
            && WeekdayOf(r) as int in ws && MinuteOfDay(r) == slot
            && (t >= now && WeekdayOf(t) as int in ws && MinuteOfDay(t) == slot ==> r <= t)
  {
    NextOnWeekdayIsLeast(ws[0] as nat, slot, now, t);
    if |ws| > 1 {
      MinNextIsLeast(ws[1..], slot, now, t);
      if WeekdayOf(t) as int in ws && WeekdayOf(t) as int != ws[0] {
        assert WeekdayOf(t) as int in ws[1..];
      }
    }
  }

  /** The job's next run time as the scheduler computes it when the job is
      added or resumed: the first matching instant at or after `now` (an
      instant equal to `now` counts as due). */
  function NextFire(tr: Trigger, now: Instant): (r: Instant)
    requires ValidTrigger(tr)
    ensures now <= r < now + MinutesPerWeek
    ensures Fires(tr, r)
  {
    MinNextIsLeast(tr.weekdays, Slot(tr), now, now);
    MinNext(tr.weekdays, Slot(tr), now)
  }

  /** No instant between `now` and the next fire time matches the trigger. */
  lemma NextFireIsEarliest(tr: Trigger, now: Instant, t: Instant)
    requires ValidTrigger(tr)
    requires now <= t && Fires(tr, t)
    ensures NextFire(tr, now) <= t
  {
    MinNextIsLeast(tr.weekdays, Slot(tr), now, t);
  }

  /** A matching `now` is its own next fire time. */
  lemma NextFireAtSlot(tr: Trigger, now: Instant)
    requires ValidTrigger(tr) && Fires(tr, now)
    ensures NextFire(tr, now) == now
  {
    NextFireIsEarliest(tr, now, now);
  }
}
