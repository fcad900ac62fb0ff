/** Cron slots: what is relied on of a cron schedule's Next, and the search for
    the latest slot still inside its starting deadline. Times are nanoseconds. */
module Slots {
  import opened Wrappers

  type Time = int

  const SECOND: int := 1_000_000_000
  const MINUTE: int := 60 * SECOND
  const HOUR: int := 60 * MINUTE
  const DAY: int := 24 * HOUR

  /** The year 10000 in UTC, from which on a slot's minute has no twelve digits. */
  const END: Time := 253_402_300_800 * SECOND

  /** How late a slot may still fire. */
  const STARTING_DEADLINE: int := 10 * MINUTE
  /** How soon a held slot is looked at again. */
  const RETRY_INTERVAL: int := MINUTE
  /** How far the cron library looks ahead before it reports no activation. */
  const HORIZON: int := 5 * 365 * DAY

  /** A parsed schedule is its Next function: the least activation after a time,
      None when there is none in the library's horizon. */
  type Cron = Time -> Option<Time>

  predicate Active(next: Cron, t: Time)
  {
    next(t - 1) == Some(t)
  }

  /** Next is the least element after its argument of one fixed set of
      minute-aligned activations (so not an @every interval). */
  ghost predicate IsCron(next: Cron)
  {
    && (forall t :: next(t).Some? ==> t < next(t).value && next(t).value % MINUTE == 0)
    && (forall t, u :: next(t).Some? && t <= u < next(t).value ==> next(u) == next(t))
    && (forall t, u :: next(t).None? && t <= u && next(u).Some? ==> next(u).value > t + HORIZON)
  }

  /** The set behind Next: Next(t) is active, and nothing active lies in between. */
  lemma NextIsLeastActivation(next: Cron, t: Time)
    requires IsCron(next)
    ensures next(t).Some? ==> Active(next, next(t).value)
    ensures forall u :: Active(next, u) && t < u ==>
              (u % MINUTE == 0 && if next(t).Some? then next(t).value <= u else t + HORIZON < u)
  {
    forall u | Active(next, u) && t < u
      ensures u % MINUTE == 0
      ensures if next(t).Some? then next(t).value <= u else t + HORIZON < u
    {
      assert next(u - 1) == Some(u) && t <= u - 1;
    }
    if next(t).Some? {
      assert next(next(t).value - 1) == next(t);
    }
  }

  function NextMinute(t: Time): Time
  {
    (t / MINUTE + 1) * MINUTE
  }

  lemma MinuteOf(t: Time, m: int)
    requires m * MINUTE <= t < (m + 1) * MINUTE
    ensures t / MINUTE == m
  {
  }

  lemma NextMinuteIs(t: Time)
    ensures t < NextMinute(t) <= t + MINUTE && NextMinute(t) % MINUTE == 0
  {
    var m := t / MINUTE;
    assert m * MINUTE <= t < (m + 1) * MINUTE;
  }

  /** A schedule of every minute is one. */
  lemma EveryMinuteIsCron()
    ensures IsCron((t: Time) => Some(NextMinute(t)))
  {
    var next := (t: Time) => Some(NextMinute(t));
    forall t ensures t < next(t).value && next(t).value % MINUTE == 0 {
      NextMinuteIs(t);
    }
    forall t, u | t <= u < next(t).value ensures next(u) == next(t) {
      NextMinuteIs(t);
      MinuteOf(u, t / MINUTE);
    }
  }

  /** slot is the greatest activation in (after, now], None if there is none. */
  ghost predicate IsLatest(next: Cron, after: Time, now: Time, slot: Option<Time>)
  {
    match slot
    case None => forall u :: Active(next, u) ==> !(after < u <= now)
    case Some(s) => Active(next, s) && after < s <= now && forall u :: Active(next, u) && after < u <= now ==> u <= s
  }

  lemma LatestIsUnique(next: Cron, after: Time, now: Time, a: Option<Time>, b: Option<Time>)
    requires IsLatest(next, after, now, a) && IsLatest(next, after, now, b)
    ensures a == b
  {
    if a.Some? { assert Active(next, a.value); }
    if b.Some? { assert Active(next, b.value); }
  }

  /** The most recent activation within window before now. */
  method LatestSlot(next: Cron, now: Time, window: int) returns (slot: Option<Time>)
    requires IsCron(next) && 0 <= window <= HORIZON - SECOND
    ensures IsLatest(next, now - window - SECOND, now, slot)
  {
    slot := None;
    ghost var after := now - window - SECOND;
    ghost var from := after;
    var t := next(now - window - SECOND);
    while t.Some? && t.value <= now
      invariant after <= from && t == next(from)
      invariant slot.Some? ==> slot.value == from && from <= now
      invariant slot.None? ==> from == after
      invariant slot.Some? ==> Active(next, from) && after < from
      decreases if t.Some? then now - t.value else -1
    {
      NextIsLeastActivation(next, from);
      slot := t;
      from := t.value;
      t := next(t.value);
    }
    NextIsLeastActivation(next, from);
  }

  /** The slot that may fire at now, as a value. */
  ghost function DueSlot(next: Cron, now: Time): (slot: Option<Time>)
    requires IsCron(next)
    ensures IsLatest(next, now - STARTING_DEADLINE - SECOND, now, slot)
  {
    LatestExists(next, now - STARTING_DEADLINE - SECOND, now);
    var slot :| IsLatest(next, now - STARTING_DEADLINE - SECOND, now, slot);
    slot
  }

  lemma LatestExists(next: Cron, from: Time, now: Time)
    requires IsCron(next) && now <= from + HORIZON
    ensures exists slot :: IsLatest(next, from, now, slot)
    decreases now - from
  {
    NextIsLeastActivation(next, from);
    if next(from).None? || next(from).value > now {
      assert IsLatest(next, from, now, None);
    } else {
      var t := next(from).value;
      LatestExists(next, t, now);
      var slot :| IsLatest(next, t, now, slot);
      assert IsLatest(next, from, now, if slot.None? then Some(t) else slot);
    }
  }

  /** slot is the latest activation, and at most ten minutes and a second old. */
  ghost predicate IsDue(next: Cron, now: Time, slot: Time)
  {
    IsLatest(next, now - 601 * SECOND, now, Some(slot))
  }

  lemma DueSlotIsDue(next: Cron, now: Time)
    requires IsCron(next)
    ensures forall slot :: IsDue(next, now, slot) <==> DueSlot(next, now) == Some(slot)
  {
    forall slot | IsDue(next, now, slot) ensures DueSlot(next, now) == Some(slot) {
      LatestIsUnique(next, now - 601 * SECOND, now, Some(slot), DueSlot(next, now));
    }
  }

  /** A slot that is due now was already due at every earlier time since it
      came up: while it lasts, a slot's deadline is one unbroken interval. */
  lemma DueSlotIsStable(next: Cron, earlier: Time, now: Time)
    requires IsCron(next) && earlier <= now
    requires DueSlot(next, now).Some? && DueSlot(next, now).value <= earlier
    ensures DueSlot(next, earlier) == DueSlot(next, now)
  {
    var slot := DueSlot(next, now);
    assert IsLatest(next, earlier - STARTING_DEADLINE - SECOND, earlier, slot) by {
      forall u | Active(next, u) && earlier - STARTING_DEADLINE - SECOND < u <= earlier
        ensures u <= slot.value
      {
        assert u <= now - STARTING_DEADLINE - SECOND || u <= slot.value;
      }
    }
    LatestIsUnique(next, earlier - STARTING_DEADLINE - SECOND, earlier, slot, DueSlot(next, earlier));
  }
}
