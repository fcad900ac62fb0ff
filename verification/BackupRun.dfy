/** Runs of the backup scheduler: time moves on, the scheduler fires due slots
    and deletes expired backups one write at a time (so it may stop, restart or
    be re-run anywhere), BR executes the backups, and deleted ones disappear.
    The schedules' cron expressions are fixed; whether a schedule runs, whether
    the Instance can back up and the retention may differ at every step. */
module BackupRun {
  import opened Wrappers
  import opened Slots
  import opened Retention

  /** The schedules by name, the name of a slot's Backup, and until when slots have
      names of their own. */
  datatype Config = Config(crons: map<string, Cron>, nameOf: (string, Time) -> string, end: Time)

  /** A slot of the schedule that has a name of its own. */
  predicate IsSlot(c: Config, schedule: string, t: Time)
    requires schedule in c.crons
  {
    0 <= t < c.end && Active(c.crons[schedule], t)
  }

  /** Two slots of one schedule never share a name. Different schedules may. */
  ghost predicate Valid(c: Config)
  {
    && (forall s :: s in c.crons ==> IsCron(c.crons[s]))
    && (forall s, t, u :: s in c.crons && IsSlot(c, s, t) && IsSlot(c, s, u) && c.nameOf(s, t) == c.nameOf(s, u) ==> t == u)
  }

  /** Clocks are past the first hour of 1970 and before the end. */
  predicate Clock(c: Config, now: Time)
  {
    HOUR <= now < c.end
  }

  /** A stored Backup with its history: the slot it was created for and the
      timestamp of its snapshot, 0 before BR takes it. */
  datatype Entry = Entry(b: Backup, slot: Time, ts: nat)

  /** tso is the last timestamp PD handed out; log lists every Backup ever
      created as (schedule, slot). */
  datatype World = World(now: Time, tso: nat, entries: map<string, Entry>, log: seq<(string, Time)>)

  datatype Action =
    | Tick(to: Time)
    | Fire(schedule: string, canBackUp: bool)
    | Expire(schedule: string, retention: Retention, name: string)
    | Start(name: string)
    | Snapshot(name: string)
    | Finish(name: string, ok: bool)
    | Gone(name: string)

  function Floor(t: Time): Time
  {
    t / SECOND * SECOND
  }

  ghost function OfSchedule(w: World, schedule: string): set<Backup>
  {
    set n | n in w.entries && w.entries[n].b.schedule == schedule :: w.entries[n].b
  }

  /** A run of the schedule is still in progress. */
  ghost predicate InProgress(w: World, schedule: string)
  {
    exists n :: n in w.entries && w.entries[n].b.schedule == schedule
      && !w.entries[n].b.deleting && !Finished(w.entries[n].b)
  }

  /** Retention windows reach at least a day back; a day may have 23 hours. */
  predicate RetentionAt(r: Retention, now: Time)
  {
    r.Window? && r.cutoff.Some? ==> r.cutoff.value <= now - 23 * HOUR
  }

  /** The Backup the scheduler creates for the schedule now, if any. */
  ghost function Fired(c: Config, w: World, schedule: string, canBackUp: bool): (name: Option<string>)
    requires Valid(c) && schedule in c.crons
  {
    match DueSlot(c.crons[schedule], w.now)
    case None => None
    case Some(slot) =>
      var name := c.nameOf(schedule, slot);
      if name !in w.entries && canBackUp && !InProgress(w, schedule) then Some(name) else None
  }

  function NewEntry(name: string, schedule: string, slot: Time, now: Time): Entry
  {
    Entry(Backup(name, schedule, Floor(now), Pending, false), slot, 0)
  }

  ghost predicate Unfinished(w: World, name: string)
  {
    name in w.entries && !Finished(w.entries[name].b)
  }

  /** The slot's Backup is created. */
  function Added(w: World, name: string, s: string, slot: Time): World
  {
    w.(entries := w.entries[name := NewEntry(name, s, slot, w.now)], log := w.log + [(s, slot)])
  }

  /** BR takes the snapshot of the Backup. */
  function Snapped(w: World, n: string): World
    requires n in w.entries
  {
    w.(entries := w.entries[n := w.entries[n].(ts := w.tso + 1)], tso := w.tso + 1)
  }

  ghost function Apply(c: Config, w: World, a: Action): World
    requires Valid(c)
  {
    match a
    case Tick(to) => if w.now <= to < c.end then w.(now := to) else w
    case Fire(s, can) =>
      if s in c.crons && Fired(c, w, s, can).Some? then
        var slot := DueSlot(c.crons[s], w.now).value;
        var name := Fired(c, w, s, can).value;
        Added(w, name, s, slot)
      else w
    case Expire(s, r, n) =>
      if n in w.entries && RetentionAt(r, w.now) && w.entries[n].b.schedule == s && IsExpired(OfSchedule(w, s), r, w.entries[n].b)
      then w.(entries := w.entries[n := w.entries[n].(b := w.entries[n].b.(deleting := true))])
      else w
    case Start(n) =>
      if Unfinished(w, n) then w.(entries := w.entries[n := w.entries[n].(b := w.entries[n].b.(state := Running))]) else w
    case Snapshot(n) =>
      if Unfinished(w, n) && w.entries[n].ts == 0
      then Snapped(w, n)
      else w
    case Finish(n, ok) =>
      if Unfinished(w, n) && (ok ==> w.entries[n].ts > 0)
      then w.(entries := w.entries[n := w.entries[n].(b := w.entries[n].b.(state := if ok then Succeeded else Failed))])
      else w
    case Gone(n) =>
      if n in w.entries && w.entries[n].b.deleting then w.(entries := w.entries - {n}) else w
  }

  ghost function Exec(c: Config, w: World, actions: seq<Action>): World
    requires Valid(c)
    decreases |actions|
  {
    if actions == [] then w else Exec(c, Apply(c, w, actions[0]), actions[1..])
  }

  function Fresh(now: Time): World
  {
    World(now, 0, map[], [])
  }

  // ---------------------------------------------------------------- invariant

  /** A stored backup was created for an activation that had come up, before the
      next one did, and is only deleted once finished. */
  ghost predicate EntryOk(c: Config, w: World, n: string)
    requires n in w.entries
  {
    var e := w.entries[n];
    && e.b.name == n && e.b.schedule in c.crons && n == c.nameOf(e.b.schedule, e.slot)
    && IsSlot(c, e.b.schedule, e.slot)
    && e.slot <= e.b.created <= w.now
    && (forall u :: Active(c.crons[e.b.schedule], u) && e.slot < u ==> e.b.created < u)
    && (e.b.deleting ==> Finished(e.b))
    && (e.b.state.Succeeded? ==> e.ts > 0)
    && e.ts <= w.tso
  }

  /** Runs of a schedule follow each other: the earlier one was finished before
      the later one was created, and its snapshot is older. */
  ghost predicate PairOk(w: World, n: string, m: string)
    requires n in w.entries && m in w.entries
  {
    var e, f := w.entries[n], w.entries[m];
    && (e.b.schedule == f.b.schedule && e.slot < f.slot ==>
          && Finished(e.b) && e.b.created < f.b.created
          && (e.ts > 0 && f.ts > 0 ==> e.ts < f.ts))
    && (n != m && e.ts > 0 ==> e.ts != f.ts)
  }

  /** A slot that has been fired and is still due has its backup in place. */
  ghost predicate LogOk(c: Config, w: World, i: nat)
    requires Valid(c) && i < |w.log|
  {
    var (s, slot) := w.log[i];
    && s in c.crons && IsSlot(c, s, slot) && slot <= w.now
    && (DueSlot(c.crons[s], w.now) == Some(slot) ==>
          && c.nameOf(s, slot) in w.entries
          && w.entries[c.nameOf(s, slot)].b.schedule == s
          && !w.entries[c.nameOf(s, slot)].b.deleting)
  }

  ghost predicate EntriesOk(c: Config, w: World)
  {
    && (forall n :: n in w.entries ==> EntryOk(c, w, n))
    && (forall n, m :: n in w.entries && m in w.entries ==> PairOk(w, n, m))
  }

  ghost predicate Inv(c: Config, w: World)
    requires Valid(c)
  {
    && Clock(c, w.now) && EntriesOk(c, w)
    && (forall i :: 0 <= i < |w.log| ==> LogOk(c, w, i))
    && (forall i, j :: 0 <= i < j < |w.log| ==> w.log[i] != w.log[j])
  }

  /** Entries of one schedule are told apart by their slots. */
  lemma SlotsDiffer(c: Config, w: World, n: string, m: string)
    requires Valid(c) && n in w.entries && m in w.entries && EntryOk(c, w, n) && EntryOk(c, w, m)
    requires n != m && w.entries[n].b.schedule == w.entries[m].b.schedule
    ensures w.entries[n].slot != w.entries[m].slot
  {
  }

  /** No run of a schedule is newer than the one of the slot that is due. */
  lemma DueIsNewest(c: Config, w: World, n: string, m: string)
    requires Valid(c) && n in w.entries && m in w.entries
    requires w.entries[m].b.schedule == w.entries[n].b.schedule
    requires EntryOk(c, w, n) && EntryOk(c, w, m) && PairOk(w, m, n)
    requires DueSlot(c.crons[w.entries[n].b.schedule], w.now) == Some(w.entries[n].slot)
    ensures !Newer(w.entries[m].b, w.entries[n].b)
  {
    NewerOrder(w.entries[n].b, w.entries[m].b);
    if n != m {
      SlotsDiffer(c, w, n, m);
    }
  }

  /** The key to firing once: while a slot is still inside its starting deadline,
      retention of any kind keeps the backup of that slot. */
  lemma DueBackupIsNeverExpired(c: Config, w: World, n: string, r: Retention)
    requires Valid(c) && EntriesOk(c, w) && n in w.entries && EntryOk(c, w, n) && RetentionAt(r, w.now)
    requires DueSlot(c.crons[w.entries[n].b.schedule], w.now) == Some(w.entries[n].slot)
    ensures !IsExpired(OfSchedule(w, w.entries[n].b.schedule), r, w.entries[n].b)
  {
    var e := w.entries[n];
    var all := OfSchedule(w, e.b.schedule);
    forall x | x in all
      ensures !Newer(x, e.b)
    {
      var m :| m in w.entries && w.entries[m].b.schedule == e.b.schedule && w.entries[m].b == x;
      assert EntryOk(c, w, m) && PairOk(w, m, n);
      DueIsNewest(c, w, n, m);
    }
    assert NewerSuccesses(all, e.b) == {};
    FreshestIsKept(all, r, e.b);
  }
}
