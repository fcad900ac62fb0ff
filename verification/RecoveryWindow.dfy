/** Retention against point-in-time recovery: deleting what a schedule's
    retention expires never takes away the base a restore would have used, from
    the schedule's newest good backup on. */
module RecoveryWindow {
  import opened Wrappers
  import Slots
  import Retention
  import Run = BackupRun
  import BackupRunInvariant
  import BackupRunResults
  import Names = ScheduledNames
  import Pitr

  /** The complete BR snapshots of the schedule's Backups are those of the run; a
      Backup's state may follow its BR Backup's phase later. */
  ghost predicate Reflects(store: Pitr.Store, w: Run.World, schedule: string)
  {
    forall n :: n in w.entries && w.entries[n].b.schedule == schedule && n in store.br && store.br[n].phase.Complete? ==>
      && !store.br[n].log && store.br[n].commitTs == Pitr.Ts(w.entries[n].ts)
      && (Retention.Finished(w.entries[n].b) ==> w.entries[n].b.state.Succeeded?)
  }

  /** n is the newest successful Backup of its schedule. */
  ghost predicate NewestSuccess(w: Run.World, n: string)
  {
    && n in w.entries && Retention.Candidate(w.entries[n].b) && w.entries[n].b.state.Succeeded?
    && Retention.NewerSuccesses(Run.OfSchedule(w, w.entries[n].b.schedule), w.entries[n].b) == {}
  }

  /** Some of what retention expires for the schedule, by name. */
  ghost predicate SomeExpired(w: Run.World, schedule: string, r: Retention.Retention, gone: set<string>)
  {
    forall n :: n in gone ==>
      && n in w.entries && w.entries[n].b.schedule == schedule
      && Retention.IsExpired(Run.OfSchedule(w, schedule), r, w.entries[n].b)
  }

  /** The store once the named Backups and their snapshots are gone. */
  function Without(store: Pitr.Store, gone: set<string>): Pitr.Store
  {
    store.(backups := Others(store.backups, gone), br := store.br - gone)
  }

  function Others(backups: seq<Pitr.BackupCr>, gone: set<string>): (out: seq<Pitr.BackupCr>)
    ensures forall b :: b in out <==> b in backups && b.name !in gone
  {
    if backups == [] then []
    else if backups[0].name in gone then Others(backups[1..], gone)
    else [backups[0]] + Others(backups[1..], gone)
  }

  /** An expired backup is older than the newest success, in TSO too. */
  lemma ExpiredIsOlder(c: Run.Config, w: Run.World, r: Retention.Retention, keep: string, n: string)
    requires Run.Valid(c) && NewestSuccess(w, keep) && n in w.entries
    requires w.entries[n].b.schedule == w.entries[keep].b.schedule && w.entries[n].b.state.Succeeded?
    requires Retention.IsExpired(Run.OfSchedule(w, w.entries[n].b.schedule), r, w.entries[n].b)
    requires Run.EntryOk(c, w, n) && Run.EntryOk(c, w, keep) && Run.PairOk(w, n, keep) && Run.PairOk(w, keep, n)
    ensures n != keep && w.entries[n].ts < w.entries[keep].ts
  {
    var all := Run.OfSchedule(w, w.entries[n].b.schedule);
    var b, k := w.entries[n].b, w.entries[keep].b;
    Retention.NewerOrder(b, k);
    assert b in all && k in all;
    assert Retention.Newer(b, k) ==> b in Retention.NewerSuccesses(all, k);
    BackupRunResults.SnapshotOrder(c, w, n, keep);
  }

  /** b is the newest snapshot between from, the start of the stream, and t. */
  ghost predicate IsBest(store: Pitr.Store, instance: string, storage: string, from: nat, t: nat, b: Pitr.Base)
  {
    && Pitr.IsSnapshot(store, instance, storage, b) && from <= b.ts <= t
    && forall x :: Pitr.IsSnapshot(store, instance, storage, x) && from <= x.ts <= t ==> x.ts <= b.ts
  }

  /** Main result. In every run of the scheduler, delete any part of what a
      schedule's retention expires: if the stream covers the schedule's newest
      good backup, every point from that backup's snapshot on is restored from
      the same base as before. */
  lemma RetentionKeepsTheWindow(c: Run.Config, now: Slots.Time, actions: seq<Run.Action>, r: Retention.Retention, keep: string,
                                gone: set<string>, store: Pitr.Store, instance: string, storage: string, from: nat,
                                t: nat, x: Pitr.Base)
    requires Run.Valid(c) && Run.Clock(c, now)
    requires NewestSuccess(Run.Exec(c, Run.Fresh(now), actions), keep)
    requires KeepIsBase(Run.Exec(c, Run.Fresh(now), actions), keep, store, instance, storage, from)
    requires SomeExpired(Run.Exec(c, Run.Fresh(now), actions), ScheduleOf(Run.Exec(c, Run.Fresh(now), actions), keep), r, gone)
    requires Run.Exec(c, Run.Fresh(now), actions).entries[keep].ts <= t
    ensures IsBest(store, instance, storage, from, t, x) <==> IsBest(Without(store, gone), instance, storage, from, t, x)
  {
    BackupRunInvariant.RunKeeps(c, Run.Fresh(now), actions);
    StateKeepsTheWindow(c, Run.Exec(c, Run.Fresh(now), actions), r, keep, gone, store, instance, storage, from, t, x);
  }

  ghost function ScheduleOf(w: Run.World, n: string): string
    requires n in w.entries
  {
    w.entries[n].b.schedule
  }

  /** The stream covers the kept backup, and the store shows the schedule's snapshots. */
  ghost predicate KeepIsBase(w: Run.World, keep: string, store: Pitr.Store, instance: string, storage: string, from: nat)
    requires keep in w.entries
  {
    && Reflects(store, w, ScheduleOf(w, keep))
    && Pitr.IsSnapshot(store, instance, storage, Pitr.Base(keep, w.entries[keep].ts)) && from <= w.entries[keep].ts
  }

  lemma StateKeepsTheWindow(c: Run.Config, w: Run.World, r: Retention.Retention, keep: string, gone: set<string>,
                            store: Pitr.Store, instance: string, storage: string, from: nat, t: nat, x: Pitr.Base)
    requires Run.Valid(c) && Run.Inv(c, w) && NewestSuccess(w, keep)
    requires KeepIsBase(w, keep, store, instance, storage, from)
    requires SomeExpired(w, ScheduleOf(w, keep), r, gone) && w.entries[keep].ts <= t
    ensures IsBest(store, instance, storage, from, t, x) <==> IsBest(Without(store, gone), instance, storage, from, t, x)
  {
    var after, k := Without(store, gone), Pitr.Base(keep, w.entries[keep].ts);
    forall y | Pitr.IsSnapshot(store, instance, storage, y) && y.name in gone
      ensures y.ts < k.ts
    {
      assert Run.EntryOk(c, w, y.name) && Run.EntryOk(c, w, keep) && Run.PairOk(w, y.name, keep) && Run.PairOk(w, keep, y.name);
      ExpiredIsOlder(c, w, r, keep, y.name);
    }
    forall y ensures Pitr.IsSnapshot(after, instance, storage, y) <==> Pitr.IsSnapshot(store, instance, storage, y) && y.name !in gone { }
    KeptIsNotGone(c, w, r, keep, gone);
    assert Pitr.IsSnapshot(after, instance, storage, k);
  }

  lemma KeptIsNotGone(c: Run.Config, w: Run.World, r: Retention.Retention, keep: string, gone: set<string>)
    requires Run.Valid(c) && Run.EntriesOk(c, w) && NewestSuccess(w, keep)
    requires SomeExpired(w, ScheduleOf(w, keep), r, gone)
    ensures keep !in gone
  {
    if keep in gone {
      assert Run.EntryOk(c, w, keep) && Run.PairOk(w, keep, keep);
      ExpiredIsOlder(c, w, r, keep, keep);
    }
  }

  /** RetentionKeepsTheWindow under the names the scheduler gives. */
  lemma RetentionKeepsTheWindowUnderItsNames(crons: map<string, Slots.Cron>, hash: string -> Names.Hash, now: Slots.Time,
                                             actions: seq<Run.Action>, r: Retention.Retention, keep: string, gone: set<string>,
                                             store: Pitr.Store, instance: string, storage: string, from: nat, t: nat, x: Pitr.Base)
    requires (forall s :: s in crons ==> Slots.IsCron(crons[s])) && Slots.HOUR <= now < Slots.END
    requires var w := Names.RunOf(crons, instance, hash, now, actions);
      && NewestSuccess(w, keep) && KeepIsBase(w, keep, store, instance, storage, from)
      && SomeExpired(w, ScheduleOf(w, keep), r, gone) && w.entries[keep].ts <= t
    ensures IsBest(store, instance, storage, from, t, x) <==> IsBest(Without(store, gone), instance, storage, from, t, x)
  {
    Names.SlotsNeverShareAName(crons, instance, hash);
    RetentionKeepsTheWindow(Names.ConfigOf(crons, instance, hash), now, actions, r, keep, gone, store, instance, storage, from, t, x);
  }
}
