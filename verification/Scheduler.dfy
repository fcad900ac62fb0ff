/** One pass of the backup scheduler over the stored Backups: fire each
    schedule's due slot, apply its retention, and compute when to run next. */
module Scheduler {
  import opened Wrappers
  import opened Slots
  import opened Retention
  import opened BackupRun
  import Results = BackupRunResults

  /** An entry of spec.backup.storages[].schedules; cron is None when the
      expression does not parse. */
  datatype Schedule = Schedule(name: string, enabled: bool, cron: Option<Cron>, retention: Retention)

  function Earliest(a: Option<Time>, b: Option<Time>): Option<Time>
  {
    if a.None? || (b.Some? && b.value < a.value) then b else a
  }

  predicate Runs(s: Schedule)
  {
    s.enabled && s.cron.Some?
  }

  /** A slot of the schedule is due that has no Backup yet and cannot get one now. */
  ghost predicate Held(c: Config, w: World, schedule: string, canBackUp: bool)
    requires schedule in c.crons
  {
    && (exists slot :: IsDue(c.crons[schedule], w.now, slot)
          && forall b :: b in OfSchedule(w, schedule) ==> b.name != c.nameOf(schedule, slot))
    && (!canBackUp || InProgress(w, schedule))
  }

  /** When the schedule wants the scheduler to look again. */
  ghost function NextCheck(c: Config, w: World, schedule: string, canBackUp: bool): (t: Option<Time>)
    requires Valid(c) && schedule in c.crons
    ensures t.Some? ==> t.value > w.now
  {
    var next := c.crons[schedule](w.now);
    if Held(c, w, schedule, canBackUp) then Earliest(next, Some(w.now + RETRY_INTERVAL)) else next
  }

  /** Backups are stored under their own names. */
  ghost predicate Named(w: World)
  {
    forall n :: n in w.entries ==> w.entries[n].b.name == n
  }

  lemma NamedStep(c: Config, w: World, a: Action)
    requires Valid(c) && Named(w)
    ensures Named(Apply(c, w, a))
  {
  }

  /** The name is free, the Instance can back up, and every Backup of the schedule is
      finished or being deleted. */
  ghost predicate MayCreate(backups: map<string, Backup>, schedule: string, name: string, canBackUp: bool)
  {
    && name !in backups && canBackUp
    && forall n :: n in backups && backups[n].schedule == schedule ==>
         backups[n].deleting || backups[n].state.Succeeded? || backups[n].state.Failed?
  }

  /** The stored Backups are those of the run. */
  ghost predicate Stores(backups: map<string, Backup>, w: World)
  {
    && backups.Keys == w.entries.Keys
    && forall n :: n in backups ==> backups[n] == w.entries[n].b
  }

  ghost function Candidates(all: set<Backup>): set<Backup>
  {
    set b | b in all && Candidate(b)
  }

  /** Retention only depends on the candidates it is given. */
  lemma OnlyCandidatesMatter(all: set<Backup>, r: Retention, b: Backup)
    ensures IsExpired(all, r, b) <==> IsExpired(Candidates(all), r, b)
  {
    assert NewerSuccesses(all, b) == NewerSuccesses(Candidates(all), b);
  }

  lemma SameCandidatesSameExpiry(all: set<Backup>, other: set<Backup>, r: Retention, b: Backup)
    requires Candidates(all) == Candidates(other)
    ensures IsExpired(all, r, b) <==> IsExpired(other, r, b)
  {
    OnlyCandidatesMatter(all, r, b);
    OnlyCandidatesMatter(other, r, b);
  }

  lemma FireKeepsOthers(c: Config, w: World, s: string, can: bool, t: string)
    requires Valid(c) && t != s
    ensures OfSchedule(Apply(c, w, Fire(s, can)), t) == OfSchedule(w, t)
  {
    var v := Apply(c, w, Fire(s, can));
    forall n | n in w.entries ensures n in v.entries && v.entries[n] == w.entries[n] { }
    forall n | n in v.entries && v.entries[n].b.schedule == t ensures n in w.entries && w.entries[n] == v.entries[n] { }
  }

  /** Firing adds an unfinished backup, which retention does not look at. */
  lemma FireKeepsCandidates(c: Config, w: World, s: string, can: bool)
    requires Valid(c)
    ensures Candidates(OfSchedule(Apply(c, w, Fire(s, can)), s)) == Candidates(OfSchedule(w, s))
  {
    var v := Apply(c, w, Fire(s, can));
    forall n | n in w.entries ensures n in v.entries && v.entries[n] == w.entries[n] { }
    forall b ensures b in Candidates(OfSchedule(v, s)) <==> b in Candidates(OfSchedule(w, s)) {
      if b in Candidates(OfSchedule(v, s)) {
        var n :| n in v.entries && v.entries[n].b == b && v.entries[n].b.schedule == s;
        assert n in w.entries;
      }
      if b in Candidates(OfSchedule(w, s)) {
        var n :| n in w.entries && w.entries[n].b == b && w.entries[n].b.schedule == s;
        assert n in v.entries && v.entries[n].b == b;
      }
    }
  }

  lemma ExpireKeepsOthers(c: Config, w: World, s: string, r: Retention, n: string, t: string)
    requires Valid(c) && t != s
    ensures OfSchedule(Apply(c, w, Expire(s, r, n)), t) == OfSchedule(w, t)
  {
    var v := Apply(c, w, Expire(s, r, n));
    assert v.entries.Keys == w.entries.Keys;
    assert forall m :: m in w.entries && w.entries[m].b.schedule == t ==> v.entries[m] == w.entries[m];
    assert forall m :: m in v.entries && v.entries[m].b.schedule == t ==> v.entries[m] == w.entries[m];
  }

  /** Deleting an expired backup takes just that one out of the candidates. */
  lemma ExpireRemovesOne(c: Config, w: World, s: string, r: Retention, b: Backup)
    requires Valid(c) && Named(w) && RetentionAt(r, w.now)
    requires IsExpired(OfSchedule(w, s), r, b)
    ensures Candidates(OfSchedule(Apply(c, w, Expire(s, r, b.name)), s)) == Candidates(OfSchedule(w, s)) - {b}
    ensures b.name in w.entries && w.entries[b.name].b == b && b.schedule == s
  {
    var n :| n in w.entries && w.entries[n].b == b && w.entries[n].b.schedule == s;
    var v := Apply(c, w, Expire(s, r, n));
    assert forall m :: m in w.entries && m != n ==> v.entries[m] == w.entries[m];
    forall x ensures x in Candidates(OfSchedule(v, s)) <==> x in Candidates(OfSchedule(w, s)) && x != b {
      if x in Candidates(OfSchedule(v, s)) {
        var m :| m in v.entries && v.entries[m].b == x && x.schedule == s;
        assert m != n && w.entries[m].b == x;
      }
      if x in Candidates(OfSchedule(w, s)) && x != b {
        var m :| m in w.entries && w.entries[m].b == x && x.schedule == s;
        assert m != n && v.entries[m].b == x;
      }
    }
  }

  lemma MembersOfSchedule(w: World, schedule: string, b: Backup)
    requires Named(w)
    ensures b in OfSchedule(w, schedule) <==> b.name in w.entries && w.entries[b.name].b == b && b.schedule == schedule
  {
    if b in OfSchedule(w, schedule) {
      var n :| n in w.entries && w.entries[n].b == b && w.entries[n].b.schedule == schedule;
    }
  }

  class BackupScheduler {
    /** The stored Backups. */
    var backups: map<string, Backup>

    ghost const c: Config
    const nameOf: (string, Time) -> string
    /** The state of the run this store is in. */
    ghost var world: World

    ghost predicate Valid()
      reads this
    {
      BackupRun.Valid(c) && nameOf == c.nameOf && Named(world) && Stores(backups, world)
    }

    /** The Backups with a schedule's name, in some order. */
    method BackupsOfSchedule(schedule: string) returns (out: seq<Backup>)
      requires Valid()
      ensures SetOf(out) == OfSchedule(world, schedule)
      ensures forall b :: b in out <==> b.name in backups && backups[b.name] == b && b.schedule == schedule
      ensures DistinctNames(out)
    {
      out := [];
      var rest := backups.Keys;
      while rest != {}
        invariant rest <= backups.Keys
        invariant forall b :: b in out <==> b.name in backups && b.name !in rest && backups[b.name] == b && b.schedule == schedule
        invariant DistinctNames(out)
        decreases |rest|
      {
        var n :| n in rest;
        rest := rest - {n};
        if backups[n].schedule == schedule {
          forall k | 0 <= k < |out| ensures out[k].name != n { assert out[k] in out; }
          out := out + [backups[n]];
        }
      }
      forall b ensures b in out <==> b in OfSchedule(world, schedule) {
        MembersOfSchedule(world, schedule, b);
      }
    }

    /** A run of the schedule is still in progress. */
    method InProgressBackup(listed: seq<Backup>, ghost schedule: string) returns (running: bool)
      requires Valid() && SetOf(listed) == OfSchedule(world, schedule)
      ensures running <==> InProgress(world, schedule)
      ensures running <==> exists b :: b in listed && !b.deleting && b.state != Succeeded && b.state != Failed
    {
      running := false;
      for i := 0 to |listed|
        invariant forall k :: 0 <= k < i ==> listed[k].deleting || Finished(listed[k])
      {
        if !listed[i].deleting && !Finished(listed[i]) {
          assert listed[i] in SetOf(listed);
          return true;
        }
      }
      forall n | n in world.entries && world.entries[n].b.schedule == schedule
        ensures world.entries[n].b.deleting || Finished(world.entries[n].b)
      {
        assert world.entries[n].b in SetOf(listed);
      }
    }

    method Lists(listed: seq<Backup>, name: string) returns (found: bool)
      ensures found <==> exists b :: b in listed && b.name == name
    {
      found := false;
      for i := 0 to |listed|
        invariant forall k :: 0 <= k < i ==> listed[k].name != name
      {
        if listed[i].name == name {
          return true;
        }
      }
    }

    /** Creates the Backup of the schedule's latest slot if it may fire now, and
        returns when the schedule wants another look. */
    method FireDueSlot(schedule: string, cron: Cron, listed: seq<Backup>, canBackUp: bool, now: Time)
      returns (wake: Option<Time>)
      requires Valid() && now == world.now && schedule in c.crons && c.crons[schedule] == cron
      requires SetOf(listed) == OfSchedule(world, schedule)
      modifies this`backups, this`world
      ensures Valid()
      ensures world == Apply(c, old(world), Fire(schedule, canBackUp))
      ensures wake == NextCheck(c, old(world), schedule, canBackUp)
      ensures forall slot :: IsDue(cron, now, slot) && MayCreate(old(backups), schedule, nameOf(schedule, slot), canBackUp) ==>
                backups == old(backups)[nameOf(schedule, slot) :=
                  Backup(nameOf(schedule, slot), schedule, now / 1_000_000_000 * 1_000_000_000, Pending, false)]
      ensures backups != old(backups) ==>
                exists slot :: IsDue(cron, now, slot) && MayCreate(old(backups), schedule, nameOf(schedule, slot), canBackUp)
    {
      DueSlotIsDue(cron, now);
      var next := cron(now);
      var slot := LatestSlot(cron, now, STARTING_DEADLINE);
      LatestIsUnique(cron, now - STARTING_DEADLINE - SECOND, now, slot, DueSlot(cron, now));
      if slot.None? {
        return next;
      }
      var name := nameOf(schedule, slot.value);
      var fired := Lists(listed, name);
      assert fired <==> exists b :: b in OfSchedule(world, schedule) && b.name == name;
      if fired {
        ghost var b :| b in OfSchedule(world, schedule) && b.name == name;
        MembersOfSchedule(world, schedule, b);
        return next;
      }
      var running := InProgressBackup(listed, schedule);
      if !canBackUp || running {
        return Earliest(next, Some(now + RETRY_INTERVAL));
      }
      if name !in backups {
        NamedStep(c, world, Fire(schedule, canBackUp));
        backups := backups[name := Backup(name, schedule, Floor(now), Pending, false)];
        world := Apply(c, world, Fire(schedule, canBackUp));
      }
      return next;
    }

    /** Deletes the schedule's expired backups, one write after the other. */
    method ApplyRetention(schedule: string, retention: Retention, listed: seq<Backup>) returns (ghost steps: seq<Action>)
      requires Valid() && RetentionAt(retention, world.now) && DistinctNames(listed)
      requires Candidates(SetOf(listed)) == Candidates(OfSchedule(world, schedule))
      modifies this`backups, this`world
      ensures Valid() && world.now == old(world.now) && world.entries.Keys == old(world).entries.Keys
      ensures world == Exec(c, old(world), steps)
      ensures forall t :: t != schedule ==> OfSchedule(world, t) == OfSchedule(old(world), t)
      ensures Candidates(OfSchedule(world, schedule)) ==
              Candidates(OfSchedule(old(world), schedule)) - ExpiredSet(OfSchedule(old(world), schedule), retention)
    {
      steps := [];
      var r := ExpiredBackups(listed, retention);
      ghost var all, keys := OfSchedule(world, schedule), world.entries.Keys;
      ExpiredOfListed(listed, all, retention, r);
      if r.Invalid? {
        return;
      }
      var expired := r.backups;
      for i := 0 to |expired|
        invariant Valid() && world.now == old(world.now) && world.entries.Keys == keys
        invariant world == Exec(c, old(world), steps)
        invariant forall t :: t != schedule ==> OfSchedule(world, t) == OfSchedule(old(world), t)
        invariant Candidates(OfSchedule(world, schedule)) == Candidates(all) - SetOf(expired[..i])
      {
        var b := expired[i];
        StillExpired(all, OfSchedule(world, schedule), retention, expired, i);
        RunGrows(c, old(world), steps, Expire(schedule, retention, b.name));
        steps := steps + [Expire(schedule, retention, b.name)];
        DeleteOne(schedule, retention, b);
        PrefixGrows(expired, i);
      }
      assert expired[..|expired|] == expired;
    }

    /** Deletes one expired backup. */
    method DeleteOne(schedule: string, ghost retention: Retention, b: Backup)
      requires Valid() && RetentionAt(retention, world.now) && IsExpired(OfSchedule(world, schedule), retention, b)
      modifies this`backups, this`world
      ensures Valid() && world.now == old(world.now) && world.entries.Keys == old(world).entries.Keys
      ensures world == Apply(c, old(world), Expire(schedule, retention, b.name))
      ensures forall t :: t != schedule ==> OfSchedule(world, t) == OfSchedule(old(world), t)
      ensures Candidates(OfSchedule(world, schedule)) == Candidates(OfSchedule(old(world), schedule)) - {b}
    {
      DeleteStep(c, world, world, [], schedule, retention, b);
      backups := backups[b.name := b.(deleting := true)];
      world := Apply(c, world, Expire(schedule, retention, b.name));
    }

    /** One schedule's share of a pass. */
    method RunSchedule(schedule: Schedule, canBackUp: bool, now: Time) returns (wake: Option<Time>, ghost steps: seq<Action>)
      requires Valid() && now == world.now && Runs(schedule) && Configured(c, schedule, now)
      modifies this`backups, this`world
      ensures Valid() && world.now == now
      ensures world == Exec(c, old(world), steps)
      ensures wake == NextCheck(c, old(world), schedule.name, canBackUp)
      ensures Handled(old(world), world, schedule) && Fires(c, old(world), world, schedule.name, canBackUp)
    {
      Results.FireExactly(c, world, schedule.name, canBackUp);
      var listed := BackupsOfSchedule(schedule.name);
      ghost var fire := Fire(schedule.name, canBackUp);
      wake := FireDueSlot(schedule.name, schedule.cron.value, listed, canBackUp, now);
      FireOutcome(c, old(world), schedule.name, canBackUp);
      ghost var fired := world;
      ghost var deletes := ApplyRetention(schedule.name, schedule.retention, listed);
      steps := [fire] + deletes;
      assert steps[1..] == deletes;
      assert Exec(c, old(world), steps) == Exec(c, fired, deletes);
      SameExpiry(OfSchedule(old(world), schedule.name), OfSchedule(fired, schedule.name), schedule.retention);
    }

    /** One pass over every schedule of the Instance: afterwards each running
        schedule has lost exactly its expired backups, and the pass is due again
        at the earliest time any of them asked for. */
    method Reconcile(storages: seq<seq<Schedule>>, canBackUp: bool, now: Time)
      returns (requeueAfter: Option<int>, ghost steps: seq<Action>)
      requires Valid() && now == world.now
      requires forall s :: s in Flat(storages) ==> Configured(c, s, now)
      requires DistinctSchedules(Flat(storages))
      modifies this`backups, this`world
      ensures Valid()
      ensures world == Exec(c, old(world), steps)
      ensures requeueAfter.Some? ==> requeueAfter.value > 0
      ensures IsWake(c, old(world), Flat(storages), canBackUp,
                     if requeueAfter.Some? then Some(now + requeueAfter.value) else None)
      ensures forall s :: s in Flat(storages) && Runs(s) ==> Pruned(old(world), world, s)
      ensures forall s :: s in Flat(storages) && Runs(s) ==> Fires(c, old(world), world, s.name, canBackUp)
    {
      steps := [];
      var wake: Option<Time> := None;
      ghost var done: seq<Schedule> := [];
      for i := 0 to |storages|
        invariant Valid() && world.now == now && world == Exec(c, old(world), steps)
        invariant done == Flat(storages[..i])
        invariant PassState(c, old(world), world, done, canBackUp, wake)
      {
        for j := 0 to |storages[i]|
          invariant Valid() && world.now == now && world == Exec(c, old(world), steps)
          invariant done == Flat(storages[..i]) + storages[i][..j]
          invariant PassState(c, old(world), world, done, canBackUp, wake)
        {
          var schedule := storages[i][j];
          NextInFlat(storages, i, j);
          ghost var before := world;
          if Runs(schedule) {
            var w, more := RunSchedule(schedule, canBackUp, now);
            Results.ExecAppend(c, old(world), steps, more);
            steps := steps + more;
            PassAdvances(c, old(world), before, world, done, schedule, canBackUp, wake, w);
            wake := Earliest(wake, w);
          } else {
            PassSkips(c, old(world), world, done, schedule, canBackUp, wake);
          }
          done := done + [schedule];
          assert storages[i][..j + 1] == storages[i][..j] + [schedule];
        }
        assert storages[i][..|storages[i]|] == storages[i];
        assert storages[..i + 1][..i] == storages[..i];
      }
      assert storages[..|storages|] == storages;
      return if wake.None? then None else Some(wake.value - now), steps;
    }
  }

  // ------------------------------------------------------- what a pass achieves

  /** The schedules of all storages, in the order a pass visits them. */
  ghost function Flat(storages: seq<seq<Schedule>>): seq<Schedule>
  {
    if storages == [] then [] else Flat(storages[..|storages| - 1]) + storages[|storages| - 1]
  }

  lemma {:induction false} FlatPrefix(storages: seq<seq<Schedule>>, i: nat)
    requires i <= |storages|
    ensures |Flat(storages[..i])| <= |Flat(storages)|
    ensures Flat(storages)[..|Flat(storages[..i])|] == Flat(storages[..i])
    decreases |storages|
  {
    if i == |storages| {
      assert storages[..i] == storages;
    } else {
      var front := storages[..|storages| - 1];
      assert front[..i] == storages[..i];
      FlatPrefix(front, i);
    }
  }

  /** The schedule visited next is not one visited before. */
  lemma NextInFlat(storages: seq<seq<Schedule>>, i: nat, j: nat)
    requires i < |storages| && j < |storages[i]| && DistinctSchedules(Flat(storages))
    ensures storages[i][j] in Flat(storages)
    ensures forall s :: s in Flat(storages[..i]) + storages[i][..j] ==> s.name != storages[i][j].name
  {
    var all, before := Flat(storages), Flat(storages[..i]);
    FlatPrefix(storages, i + 1);
    assert storages[..i + 1][..i] == storages[..i];
    assert Flat(storages[..i + 1]) == before + storages[i];
    var k := |before| + j;
    assert all[k] == all[..|before| + |storages[i]|][k] == storages[i][j];
    forall s | s in before + storages[i][..j] ensures s.name != storages[i][j].name {
      var m :| 0 <= m < k && (before + storages[i][..j])[m] == s;
      assert all[m] == all[..|before| + |storages[i]|][m] == s;
    }
  }

  ghost predicate DistinctSchedules(schedules: seq<Schedule>)
  {
    forall i, j :: 0 <= i < j < |schedules| ==> schedules[i].name != schedules[j].name
  }

  /** The schedule is one of the run's, with a retention that holds now. */
  ghost predicate Configured(c: Config, s: Schedule, now: Time)
  {
    && (Runs(s) ==> s.name in c.crons && c.crons[s.name] == s.cron.value)
    && RetentionAt(s.retention, now)
  }

  /** The schedule lost exactly its expired backups. */
  ghost predicate Pruned(before: World, after: World, s: Schedule)
  {
    Candidates(OfSchedule(after, s.name)) ==
    Candidates(OfSchedule(before, s.name)) - ExpiredSet(OfSchedule(before, s.name), s.retention)
  }

  /** ... and no other schedule changed. */
  ghost predicate Handled(before: World, after: World, s: Schedule)
  {
    Pruned(before, after, s) && forall t :: t != s.name ==> Untouched(before, after, t)
  }

  ghost predicate Untouched(before: World, after: World, schedule: string)
  {
    OfSchedule(after, schedule) == OfSchedule(before, schedule)
  }

  /** Every slot of the schedule that may fire has its Backup, and none is gone. */
  ghost predicate Fires(c: Config, before: World, after: World, schedule: string, canBackUp: bool)
  {
    && before.entries.Keys <= after.entries.Keys
    && forall slot :: Results.MayFire(c, before, schedule, slot, canBackUp) ==> c.nameOf(schedule, slot) in after.entries
  }

  /** What the schedule asks for, None when it does not run. */
  ghost function Check(c: Config, w: World, s: Schedule, canBackUp: bool): (t: Option<Time>)
    requires Valid(c)
    ensures t.Some? ==> t.value > w.now
  {
    if Runs(s) && s.name in c.crons then NextCheck(c, w, s.name, canBackUp) else None
  }

  /** wake is the least of the times the schedules ask for, None when none asks. */
  ghost predicate IsWake(c: Config, w: World, schedules: seq<Schedule>, canBackUp: bool, wake: Option<Time>)
    requires Valid(c)
  {
    && (forall s :: s in schedules && Check(c, w, s, canBackUp).Some? ==>
          wake.Some? && wake.value <= Check(c, w, s, canBackUp).value)
    && (wake.Some? ==> exists s :: s in schedules && Check(c, w, s, canBackUp) == wake)
  }

  /** How far a pass has come: the schedules done are pruned, the others still as
      they were listed, and wake is right for those done. */
  ghost predicate PassState(c: Config, start: World, w: World, done: seq<Schedule>, canBackUp: bool, wake: Option<Time>)
    requires Valid(c)
  {
    && w.now == start.now
    && IsWake(c, start, done, canBackUp, wake)
    && (forall t :: (forall s :: s in done ==> s.name != t) ==> Untouched(start, w, t))
    && (forall s :: s in done && Runs(s) ==> Pruned(start, w, s))
    && (forall s :: s in done && Runs(s) ==> Fires(c, start, w, s.name, canBackUp))
    && start.entries.Keys <= w.entries.Keys
  }

  lemma SameListSameCheck(c: Config, start: World, w: World, s: Schedule, can: bool)
    requires Valid(c) && w.now == start.now && Untouched(start, w, s.name)
    ensures Check(c, w, s, can) == Check(c, start, s, can)
  {
    assert InProgress(w, s.name) <==> exists b :: b in OfSchedule(w, s.name) && !b.deleting && !Finished(b);
    assert InProgress(start, s.name) <==> exists b :: b in OfSchedule(start, s.name) && !b.deleting && !Finished(b);
  }

  lemma WakeGrows(c: Config, w: World, done: seq<Schedule>, s: Schedule, can: bool, wake: Option<Time>)
    requires Valid(c) && IsWake(c, w, done, can, wake)
    ensures IsWake(c, w, done + [s], can, Earliest(wake, Check(c, w, s, can)))
  {
    var all, next := done + [s], Earliest(wake, Check(c, w, s, can));
    assert s in all;
    if wake.Some? && next == wake {
      var t :| t in done && Check(c, w, t, can) == wake;
      assert t in all;
    }
    forall t | t in all && Check(c, w, t, can).Some?
      ensures next.Some? && next.value <= Check(c, w, t, can).value
    {
      assert t in done || t == s;
    }
  }

  lemma PassSkips(c: Config, start: World, w: World, done: seq<Schedule>, s: Schedule, can: bool, wake: Option<Time>)
    requires Valid(c) && PassState(c, start, w, done, can, wake) && !Runs(s)
    ensures PassState(c, start, w, done + [s], can, wake)
  {
    WakeGrows(c, start, done, s, can, wake);
    var all := done + [s];
    assert forall t :: t in all <==> t in done || t == s;
    forall t | forall x :: x in all ==> x.name != t
      ensures Untouched(start, w, t)
    {
      forall x | x in done ensures x.name != t { assert x in all; }
    }
  }

  lemma PassAdvances(c: Config, start: World, w: World, v: World, done: seq<Schedule>, s: Schedule, can: bool,
                     wake: Option<Time>, asked: Option<Time>)
    requires Valid(c) && PassState(c, start, w, done, can, wake) && Runs(s) && s.name in c.crons
    requires forall x :: x in done ==> x.name != s.name
    requires v.now == w.now && Handled(w, v, s) && Fires(c, w, v, s.name, can) && asked == NextCheck(c, w, s.name, can)
    ensures PassState(c, start, v, done + [s], can, Earliest(wake, asked))
  {
    assert Untouched(start, w, s.name);
    SameListSameCheck(c, start, w, s, can);
    WakeGrows(c, start, done, s, can, wake);
    var all := done + [s];
    assert forall t :: t in all <==> t in done || t == s;
    forall t | forall x :: x in all ==> x.name != t
      ensures Untouched(start, v, t)
    {
      forall x | x in done ensures x.name != t { assert x in all; }
      assert s in all;
      assert Untouched(w, v, t) && Untouched(start, w, t);
    }
    forall x | x in all && Runs(x)
      ensures Pruned(start, v, x)
    {
      if x != s {
        assert Untouched(w, v, x.name) && Pruned(start, w, x);
      }
    }
    StillFires(c, start, w, v, s.name, can);
    forall x | x in all && Runs(x) ensures Fires(c, start, v, x.name, can) {
      if x != s { assert Fires(c, start, w, x.name, can); }
    }
  }

  /** A slot that might fire when the pass began may fire when its turn comes, unless
      its name has been taken. */
  lemma StillFires(c: Config, start: World, w: World, v: World, schedule: string, can: bool)
    requires w.now == start.now && Untouched(start, w, schedule) && start.entries.Keys <= w.entries.Keys
    requires Fires(c, w, v, schedule, can)
    ensures Fires(c, start, v, schedule, can)
  {
    forall slot | Results.MayFire(c, start, schedule, slot, can)
      ensures c.nameOf(schedule, slot) in v.entries
    {
      if c.nameOf(schedule, slot) !in w.entries {
        forall n | n in w.entries && w.entries[n].b.schedule == schedule
          ensures w.entries[n].b.deleting || w.entries[n].b.state.Succeeded? || w.entries[n].b.state.Failed?
        {
          assert w.entries[n].b in OfSchedule(start, schedule);
        }
        assert Results.MayFire(c, w, schedule, slot, can);
      }
    }
  }

  /** No slot is slept past: when the pass is due again no running schedule has
      had an activation that it has not seen. */
  lemma NoSlotIsSleptPast(c: Config, w: World, schedules: seq<Schedule>, canBackUp: bool, wake: Option<Time>, s: Schedule, slot: Time)
    requires Valid(c) && IsWake(c, w, schedules, canBackUp, wake)
    requires s in schedules && Runs(s) && s.name in c.crons
    requires Active(c.crons[s.name], slot) && w.now < slot <= w.now + HORIZON
    ensures wake.Some? && wake.value <= slot
  {
    NextIsLeastActivation(c.crons[s.name], w.now);
    assert Check(c, w, s, canBackUp).Some? && Check(c, w, s, canBackUp).value <= slot;
  }

  /** A slot that is held back is looked at again within the retry interval. */
  lemma HeldSlotIsRetried(c: Config, w: World, schedules: seq<Schedule>, canBackUp: bool, wake: Option<Time>, s: Schedule)
    requires Valid(c) && IsWake(c, w, schedules, canBackUp, wake)
    requires s in schedules && Runs(s) && s.name in c.crons && Held(c, w, s.name, canBackUp)
    ensures wake.Some? && w.now < wake.value <= w.now + RETRY_INTERVAL
  {
    assert Check(c, w, s, canBackUp).Some? && Check(c, w, s, canBackUp).value <= w.now + RETRY_INTERVAL;
  }

  /** The pass is not due again without a reason: it is due at the next activation
      of a running schedule, or a minute from now for one that is held. */
  lemma WakeHasAReason(c: Config, w: World, schedules: seq<Schedule>, canBackUp: bool, wake: Option<Time>) returns (s: Schedule)
    requires Valid(c) && IsWake(c, w, schedules, canBackUp, wake) && wake.Some?
    ensures s in schedules && Runs(s) && s.name in c.crons
    ensures || wake == c.crons[s.name](w.now)
            || (Held(c, w, s.name, canBackUp) && wake == Some(w.now + 60 * SECOND))
  {
    s :| s in schedules && Check(c, w, s, canBackUp) == wake;
  }

  lemma FireOutcome(c: Config, w: World, s: string, can: bool)
    requires Valid(c)
    ensures var v := Apply(c, w, Fire(s, can));
      && v.now == w.now
      && Candidates(OfSchedule(v, s)) == Candidates(OfSchedule(w, s))
      && forall t :: t != s ==> OfSchedule(v, t) == OfSchedule(w, t)
  {
    FireKeepsCandidates(c, w, s, can);
    forall t | t != s ensures OfSchedule(Apply(c, w, Fire(s, can)), t) == OfSchedule(w, t) {
      FireKeepsOthers(c, w, s, can, t);
    }
  }

  lemma SameExpiry(all: set<Backup>, other: set<Backup>, r: Retention)
    requires Candidates(all) == Candidates(other)
    ensures ExpiredSet(all, r) == ExpiredSet(other, r)
  {
    forall b ensures b in ExpiredSet(all, r) <==> b in ExpiredSet(other, r) {
      assert b in Candidates(all) <==> b in Candidates(other);
      SameCandidatesSameExpiry(all, other, r, b);
    }
  }

  /** What one delete changes. */
  lemma DeleteStep(c: Config, start: World, w: World, steps: seq<Action>, schedule: string, r: Retention, b: Backup)
    requires Valid(c) && Named(w) && RetentionAt(r, w.now) && IsExpired(OfSchedule(w, schedule), r, b)
    requires w == Exec(c, start, steps)
    ensures var a := Expire(schedule, r, b.name); var v := Apply(c, w, a);
      && Named(v) && v.now == w.now && v == Exec(c, start, steps + [a])
      && v.entries.Keys == w.entries.Keys
      && b.name in v.entries && v.entries[b.name].b == b.(deleting := true)
      && (forall n :: n in w.entries && n != b.name ==> v.entries[n] == w.entries[n])
      && (forall t :: t != schedule ==> OfSchedule(v, t) == OfSchedule(w, t))
      && Candidates(OfSchedule(v, schedule)) == Candidates(OfSchedule(w, schedule)) - {b}
  {
    var a := Expire(schedule, r, b.name);
    ExpireRemovesOne(c, w, schedule, r, b);
    NamedStep(c, w, a);
    RunGrows(c, start, steps, a);
    forall t | t != schedule ensures OfSchedule(Apply(c, w, a), t) == OfSchedule(w, t) {
      ExpireKeepsOthers(c, w, schedule, r, b.name, t);
    }
  }

  lemma ExpiredOfListed(listed: seq<Backup>, all: set<Backup>, r: Retention, result: Result)
    requires Candidates(SetOf(listed)) == Candidates(all)
    requires result.Invalid? <==> r == Count(None) || r == Window(None) || r.Unknown?
    requires result.Expired? ==> forall b :: b in result.backups <==> IsExpired(SetOf(listed), r, b)
    ensures if result.Expired? then forall b :: b in result.backups <==> b in ExpiredSet(all, r)
            else ExpiredSet(all, r) == {}
  {
    if result.Expired? {
      forall b ensures b in result.backups <==> b in ExpiredSet(all, r) {
        SameCandidatesSameExpiry(SetOf(listed), all, r, b);
      }
    }
  }

  lemma {:induction false} RunGrows(c: Config, w: World, steps: seq<Action>, a: Action)
    requires Valid(c)
    ensures Exec(c, w, steps + [a]) == Apply(c, Exec(c, w, steps), a)
    decreases |steps|
  {
    if steps == [] {
      assert steps + [a] == [a];
      assert Exec(c, w, [a]) == Exec(c, Apply(c, w, a), [a][1..]);
    } else {
      assert (steps + [a])[1..] == steps[1..] + [a];
      RunGrows(c, Apply(c, w, steps[0]), steps[1..], a);
    }
  }

  lemma PrefixGrows(expired: seq<Backup>, i: nat)
    requires i < |expired|
    ensures SetOf(expired[..i + 1]) == SetOf(expired[..i]) + {expired[i]}
  {
    assert expired[..i + 1] == expired[..i] + [expired[i]];
  }

  /** Part of the way through the deletes, the next one on the list is still expired. */
  lemma StillExpired(all: set<Backup>, current: set<Backup>, r: Retention, expired: seq<Backup>, i: nat)
    requires i < |expired| && DistinctNames(expired)
    requires forall b :: b in expired <==> b in ExpiredSet(all, r)
    requires Candidates(current) == Candidates(all) - SetOf(expired[..i])
    ensures IsExpired(current, r, expired[i])
  {
    var b, gone := expired[i], SetOf(expired[..i]);
    assert gone <= ExpiredSet(all, r);
    RetentionStep(all, r, gone);
    assert b in expired && b !in gone;
    assert b in ExpiredSet(all - gone, r);
    assert Candidates(current) == Candidates(all - gone);
    SameCandidatesSameExpiry(current, all - gone, r, b);
  }
}
