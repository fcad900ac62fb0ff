/** What every run of the backup scheduler keeps. */
module BackupRunResults {
  import opened Wrappers
  import opened Slots
  import opened Retention
  import opened BackupRun
  import opened BackupRunInvariant

  ghost predicate SameSchedule(w: World, n: string, m: string)
  {
    n in w.entries && m in w.entries && w.entries[n].b.schedule == w.entries[m].b.schedule
  }

  ghost predicate BothSucceeded(w: World, n: string, m: string)
  {
    && n in w.entries && w.entries[n].b.state.Succeeded?
    && m in w.entries && w.entries[m].b.state.Succeeded?
  }

  /** In every run, however often the scheduler is restarted and whatever
      retention deletes in between, a schedule's slot creates at most one Backup. */
  lemma EachSlotFiresAtMostOnce(c: Config, now: Time, actions: seq<Action>)
    requires Valid(c) && Clock(c, now)
    ensures var log := Exec(c, Fresh(now), actions).log;
      forall i, j :: 0 <= i < j < |log| ==> log[i] != log[j]
  {
    RunKeeps(c, Fresh(now), actions);
  }

  /** In every run each schedule has at most one unfinished Backup. */
  lemma AtMostOneUnfinished(c: Config, now: Time, actions: seq<Action>, n: string, m: string)
    requires Valid(c) && Clock(c, now)
    requires Unfinished(Exec(c, Fresh(now), actions), n) && Unfinished(Exec(c, Fresh(now), actions), m)
    requires SameSchedule(Exec(c, Fresh(now), actions), n, m)
    ensures n == m
  {
    RunKeeps(c, Fresh(now), actions);
    var w := Exec(c, Fresh(now), actions);
    assert PairOk(w, n, m) && PairOk(w, m, n);
    if n != m { SlotsDiffer(c, w, n, m); }
  }

  /** In every run the successful backups of a schedule are in the same order by
      creation and by snapshot. */
  lemma CreationOrderIsSnapshotOrder(c: Config, now: Time, actions: seq<Action>, n: string, m: string)
    requires Valid(c) && Clock(c, now)
    requires SameSchedule(Exec(c, Fresh(now), actions), n, m)
    requires BothSucceeded(Exec(c, Fresh(now), actions), n, m)
    ensures var w := Exec(c, Fresh(now), actions);
      Newer(w.entries[m].b, w.entries[n].b) <==> w.entries[n].ts < w.entries[m].ts
  {
    RunKeeps(c, Fresh(now), actions);
    SnapshotOrder(c, Exec(c, Fresh(now), actions), n, m);
  }

  lemma SnapshotOrder(c: Config, w: World, n: string, m: string)
    requires Valid(c) && SameSchedule(w, n, m) && BothSucceeded(w, n, m)
    requires EntryOk(c, w, n) && EntryOk(c, w, m) && PairOk(w, n, m) && PairOk(w, m, n)
    ensures Newer(w.entries[m].b, w.entries[n].b) <==> w.entries[n].ts < w.entries[m].ts
  {
    NewerOrder(w.entries[n].b, w.entries[m].b);
    if n != m { SlotsDiffer(c, w, n, m); }
  }

  // ------------------------------------------------------------- due slots fire

  /** The slot is due and has no Backup, the Instance can back up, and every Backup
      of the schedule is finished or being deleted. */
  ghost predicate MayFire(c: Config, w: World, schedule: string, slot: Time, canBackUp: bool)
  {
    && schedule in c.crons && IsDue(c.crons[schedule], w.now, slot) && canBackUp
    && c.nameOf(schedule, slot) !in w.entries
    && forall n :: n in w.entries && w.entries[n].b.schedule == schedule ==>
         w.entries[n].b.deleting || w.entries[n].b.state.Succeeded? || w.entries[n].b.state.Failed?
  }

  /** Exactly when a pass creates a Backup for a slot, and which: pending, created
      now to the second, and every other Backup stays as it is. */
  lemma FireExactly(c: Config, w: World, schedule: string, canBackUp: bool)
    requires Valid(c)
    ensures var v := Apply(c, w, Fire(schedule, canBackUp));
      && (forall slot :: MayFire(c, w, schedule, slot, canBackUp) <==> v.log == w.log + [(schedule, slot)])
      && (v != w ==> exists slot :: MayFire(c, w, schedule, slot, canBackUp))
    ensures forall slot :: MayFire(c, w, schedule, slot, canBackUp) ==>
              var v, name := Apply(c, w, Fire(schedule, canBackUp)), c.nameOf(schedule, slot);
              && v.now == w.now && v.entries.Keys == w.entries.Keys + {name}
              && v.entries[name].b == Backup(name, schedule, w.now / 1_000_000_000 * 1_000_000_000, Pending, false)
              && forall n :: n in w.entries ==> v.entries[n] == w.entries[n]
  {
    if schedule in c.crons {
      DueSlotIsDue(c.crons[schedule], w.now);
      if Fired(c, w, schedule, canBackUp).Some? {
        assert MayFire(c, w, schedule, DueSlot(c.crons[schedule], w.now).value, canBackUp);
      }
    }
    var v := Apply(c, w, Fire(schedule, canBackUp));
    forall slot | v.log == w.log + [(schedule, slot)] ensures MayFire(c, w, schedule, slot, canBackUp) {
      assert v.log[|w.log|] == (schedule, slot);
    }
  }

  lemma {:induction false} LogGrows(c: Config, w: World, actions: seq<Action>)
    requires Valid(c)
    ensures w.log <= Exec(c, w, actions).log
    decreases |actions|
  {
    if actions != [] {
      LogGrows(c, Apply(c, w, actions[0]), actions[1..]);
      assert w.log <= Apply(c, w, actions[0]).log;
    }
  }

  lemma {:induction false} ExecAppend(c: Config, w: World, a: seq<Action>, b: seq<Action>)
    requires Valid(c)
    ensures Exec(c, w, a + b) == Exec(c, Exec(c, w, a), b)
    decreases |a|
  {
    if a == [] {
      assert a + b == b;
    } else {
      assert (a + b)[1..] == a[1..] + b;
      ExecAppend(c, Apply(c, w, a[0]), a[1..], b);
    }
  }

  /** The only places of the log with the slot. */
  ghost predicate FiredOnce(log: seq<(string, Time)>, schedule: string, slot: Time)
  {
    exists i :: 0 <= i < |log| && log[i] == (schedule, slot) && forall j :: 0 <= j < |log| && j != i ==> log[j] != (schedule, slot)
  }

  /** No due slot is missed: in every run, a pass that finds one that may fire gives
      it its Backup, and the slot has exactly one for the rest of the run. */
  lemma DueSlotFiresOnce(c: Config, now: Time, before: seq<Action>, after: seq<Action>, schedule: string, slot: Time)
    requires Valid(c) && Clock(c, now)
    requires MayFire(c, Exec(c, Fresh(now), before), schedule, slot, true)
    ensures FiredOnce(Exec(c, Fresh(now), before + ([Fire(schedule, true)] + after)).log, schedule, slot)
  {
    var w, rest := Exec(c, Fresh(now), before), [Fire(schedule, true)] + after;
    ExecAppend(c, Fresh(now), before, rest);
    assert rest[1..] == after;
    var v := Apply(c, w, Fire(schedule, true));
    FireExactly(c, w, schedule, true);
    LogGrows(c, v, after);
    var log := Exec(c, v, after).log;
    assert log[|w.log|] == (schedule, slot);
    EachSlotFiresAtMostOnce(c, now, before + rest);
  }
}
