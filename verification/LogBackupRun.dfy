/** The life of an Instance's log backup: passes of the Instance and of restores
    into it, each stopped anywhere and interleaved with each other, with TiDB
    Operator stopping the stream, and with what users do. */
module LogBackupRun {
  import opened Wrappers

  /** An entry of spec.backup.storages. */
  datatype StorageSpec = StorageSpec(ref: string, pitr: bool)

  /** The BR log backup: the storage it is annotated with, and the bucket it
      streams to; id is history telling one object from its successors. */
  datatype LogBackup = LogBackup(id: nat, storage: string, bucket: string, deleting: bool)

  /** Where a pass of the Instance is, with what it has read: the storage wanted
      when it began, whether it found a log backup, and the storage's bucket. */
  datatype Pass =
    | Idle
    | Reading(wanted: Option<string>)
    | Stopping
    | DroppingSecret
    | Checking(storage: string)
    | ReadingStorage(storage: string, found: bool)
    | WritingSecret(storage: string, found: bool, bucket: string)
    | Applying(storage: string, found: bool, bucket: string)

  /** Where a pass of a restore is: past its check, then with its Secret written.
      seen is history, the log backups that had been created when it checked. */
  datatype RestorePass = Checked(seen: nat) | Prepared(seen: nat)

  /** History of a log backup's creation: its storage, and whether the cluster had
      been ready, with no seeding pending, at some time since its predecessor. */
  datatype Birth = Birth(storage: string, ready: bool)

  /** What the passes read. storages are the BackupStorages, by name, with their
      bucket if they are S3; seeded is the data source status's Done, None without
      a data source; nextToLog is whether TiKV's version restores next to a log
      backup. */
  datatype Env = Env(
    spec: Option<seq<StorageSpec>>,
    storages: map<string, Option<string>>,
    clusterReady: bool,
    seeded: Option<bool>,
    nextToLog: bool)

  /** The log backup, the storage its Secret holds credentials of, and the pass of
      the Instance. The rest is history: the log backups created, whether the
      cluster has been ready since there was last one, and whether one was created
      while a restore was under way that cannot share the cluster with it. */
  datatype Stream = Stream(
    log: Option<LogBackup>,
    secret: Option<string>,
    pass: Pass,
    births: seq<Birth>,
    wasReady: bool,
    overlapped: bool)

  /** The BR Restores, and whether each still runs, the Secrets written for them,
      and the passes on restores. */
  datatype Restores = Restores(running: map<string, bool>, secrets: set<string>, passes: map<string, RestorePass>)

  datatype World = World(env: Env, stream: Stream, restores: Restores)

  datatype Action =
    // the provider
    | Begin
    | Step
    | Crash
    | BeginRestore(name: string)
    | StepRestore(name: string)
    | CrashRestore(name: string)
    // TiDB Operator and BR
    | Stopped
    | RestoreEnds(name: string)
    | SetReady(ready: bool)
    | SetSeeded(done: Option<bool>)
    // users
    | Edit(spec: Option<seq<StorageSpec>>)
    | SetStorage(name: string, bucket: Option<string>)
    | Upgrade
    | DeleteLogBackup

  /** The storage with point-in-time recovery enabled, if any: the first one. */
  function Wanted(spec: Option<seq<StorageSpec>>): Option<string>
  {
    if spec.None? then None else FirstEnabled(spec.value)
  }

  function FirstEnabled(storages: seq<StorageSpec>): Option<string>
  {
    if storages == [] then None
    else if storages[0].pitr then Some(storages[0].ref)
    else FirstEnabled(storages[1..])
  }

  /** Point-in-time recovery is enabled for the storage, and for none before it. */
  ghost predicate Wants(spec: Option<seq<StorageSpec>>, storage: string)
  {
    && spec.Some?
    && exists i :: 0 <= i < |spec.value| && spec.value[i] == StorageSpec(storage, true) && NoneBefore(spec.value, i)
  }

  ghost predicate NoneBefore(storages: seq<StorageSpec>, i: nat)
    requires i <= |storages|
  {
    forall j :: 0 <= j < i ==> !storages[j].pitr
  }

  /** What a pass streams to is the first storage with recovery enabled. */
  lemma WantedIsFirst(spec: Option<seq<StorageSpec>>)
    ensures forall s :: Wanted(spec) == Some(s) <==> Wants(spec, s)
  {
    if spec.Some? {
      forall s ensures Wanted(spec) == Some(s) <==> Wants(spec, s) {
        FirstIsWanted(spec.value, s);
      }
    }
  }

  lemma {:induction false} FirstIsWanted(storages: seq<StorageSpec>, storage: string)
    ensures FirstEnabled(storages) == Some(storage) <==> Wants(Some(storages), storage)
  {
    if storages != [] && !storages[0].pitr {
      var rest := storages[1..];
      FirstIsWanted(rest, storage);
      assert forall i :: 0 < i < |storages| ==> storages[i] == rest[i - 1];
      if Wants(Some(rest), storage) {
        var i :| 0 <= i < |rest| && rest[i] == StorageSpec(storage, true) && NoneBefore(rest, i);
        assert storages[i + 1] == StorageSpec(storage, true) && NoneBefore(storages, i + 1);
      }
    } else if storages != [] {
      assert NoneBefore(storages, 0);
    }
  }

  predicate Ready(e: Env)
  {
    e.clusterReady && e.seeded != Some(false)
  }

  /** What restoreBlockedByLogBackup lets through. */
  predicate RestoreAllowed(w: World)
  {
    w.stream.log.None? || (!w.stream.log.value.deleting && w.env.nextToLog)
  }

  /** Some BR Restore into the cluster runs. */
  predicate Restoring(r: Restores)
  {
    exists n :: n in r.running && r.running[n]
  }

  /** A restore runs, or a pass on one is past its check. */
  predicate UnderWay(r: Restores)
  {
    Restoring(r) || r.passes != map[]
  }

  function BucketOf(e: Env, storage: string): Option<string>
  {
    if storage in e.storages then e.storages[storage] else None
  }

  function Marked(log: Option<LogBackup>): Option<LogBackup>
  {
    if log.None? then None else Some(log.value.(deleting := true))
  }

  /** Server-side apply of the log backup: it updates the one that is there. */
  function Applied(s: Stream, storage: string, bucket: string, exclusive: bool): Stream
  {
    if s.log.Some? then s.(log := Some(s.log.value.(storage := storage, bucket := bucket)), pass := Idle)
    else
      s.(log := Some(LogBackup(|s.births|, storage, bucket, false)),
         births := s.births + [Birth(storage, s.wasReady)],
         overlapped := s.overlapped || exclusive,
         pass := Idle)
  }

  /** Which branch syncLogBackup takes on what it finds. */
  function Branch(log: Option<LogBackup>, wanted: Option<string>): Pass
  {
    if log.Some? then
      if log.value.deleting then Idle
      else if wanted != Some(log.value.storage) then Stopping
      else ReadingStorage(wanted.value, true)
    else if wanted.None? then DroppingSecret
    else Checking(wanted.value)
  }

  /** One step of a pass of the Instance: syncLogBackup's next read or write. */
  function PassStep(e: Env, s: Stream, exclusive: bool): Stream
  {
    match s.pass
    case Idle => s
    case Reading(wanted) => s.(pass := Branch(s.log, wanted))
    case Stopping => s.(log := Marked(s.log), pass := Idle)
    case DroppingSecret => s.(secret := None, pass := Idle)
    case Checking(storage) => s.(pass := if Ready(e) then ReadingStorage(storage, false) else Idle)
    case ReadingStorage(storage, found) =>
      var bucket := BucketOf(e, storage);
      s.(pass := if bucket.Some? then WritingSecret(storage, found, bucket.value) else Idle)
    case WritingSecret(storage, found, bucket) => s.(secret := Some(storage), pass := Applying(storage, found, bucket))
    case Applying(storage, _, bucket) => Applied(s, storage, bucket, exclusive)
  }

  function StreamStep(e: Env, s: Stream, exclusive: bool, a: Action): Stream
  {
    match a
    case Begin => if s.pass.Idle? then s.(pass := Reading(Wanted(e.spec))) else s
    case Step => PassStep(e, s, exclusive)
    case Crash => s.(pass := Idle)
    case Stopped => if s.log.Some? && s.log.value.deleting then s.(log := None) else s
    case DeleteLogBackup => s.(log := Marked(s.log))
    case _ => s
  }

  /** A pass of a restore: its check, its Secret, then the BR Restore. */
  function RestoresStep(r: Restores, allowed: bool, born: nat, a: Action): Restores
  {
    match a
    case BeginRestore(n) =>
      if n !in r.running && n !in r.passes && allowed then r.(passes := r.passes[n := Checked(born)]) else r
    case StepRestore(n) =>
      if n !in r.passes then r
      else if r.passes[n].Checked? then r.(secrets := r.secrets + {n}, passes := r.passes[n := Prepared(r.passes[n].seen)])
      else r.(running := if n in r.running then r.running else r.running[n := true], passes := r.passes - {n})
    case CrashRestore(n) => r.(passes := r.passes - {n})
    case RestoreEnds(n) => if n in r.running then r.(running := r.running[n := false]) else r
    case _ => r
  }

  function EnvStep(e: Env, a: Action): Env
  {
    match a
    case SetReady(ready) => e.(clusterReady := ready)
    case SetSeeded(done) => e.(seeded := done)
    case Edit(spec) => e.(spec := spec)
    case SetStorage(n, bucket) => e.(storages := e.storages[n := bucket])
    case Upgrade => e.(nextToLog := true)
    case _ => e
  }

  /** What history keeps of a state: the cluster has been ready, and its data source
      not short of being done, since there was last a log backup. */
  function Seen(e: Env, s: Stream): Stream
  {
    s.(wasReady := s.log.None? && (s.wasReady || (e.clusterReady && e.seeded != Some(false))))
  }

  function Apply(w: World, a: Action): World
  {
    var env := EnvStep(w.env, a);
    World(env,
          Seen(env, StreamStep(w.env, w.stream, UnderWay(w.restores) && !w.env.nextToLog, a)),
          RestoresStep(w.restores, RestoreAllowed(w), |w.stream.births|, a))
  }

  function Exec(w: World, actions: seq<Action>): World
    decreases |actions|
  {
    if actions == [] then w else Exec(Apply(w, actions[0]), actions[1..])
  }

  function Fresh(spec: Option<seq<StorageSpec>>, nextToLog: bool): World
  {
    World(Env(spec, map[], false, None, nextToLog), Stream(None, None, Idle, [], false, false), Restores(map[], {}, map[]))
  }

  // ---------------------------------------------------- the stream and its Secret

  /** The pass has decided that there is to be a log backup on its storage. */
  predicate Decided(p: Pass)
  {
    p.ReadingStorage? || p.WritingSecret? || p.Applying?
  }

  /** What a pass has read still holds, as far as it relies on it: it is the only
      one to create log backups. */
  ghost predicate PassOk(s: Stream)
  {
    && (s.pass.DroppingSecret? || s.pass.Checking? ==> s.log.None?)
    && (Decided(s.pass) && s.log.Some? ==> s.log.value.storage == s.pass.storage)
    && (Decided(s.pass) && !s.pass.found ==> s.log.None? && s.wasReady)
    && (s.pass.Applying? ==> s.secret == Some(s.pass.storage))
  }

  /** The log backup is the last one created, on the storage it was created on,
      and its Secret holds the credentials of that storage. */
  ghost predicate StreamOk(s: Stream)
  {
    s.log.Some? ==>
      && s.log.value.id == |s.births| - 1 && s.log.value.storage == s.births[|s.births| - 1].storage
      && s.secret == Some(s.log.value.storage)
  }

  ghost predicate StreamInv(e: Env, s: Stream)
  {
    PassOk(s) && StreamOk(s) && (s.log.None? && e.clusterReady && e.seeded != Some(false) ==> s.wasReady)
  }

  lemma PassStepKeeps(e: Env, s: Stream, exclusive: bool)
    requires StreamInv(e, s)
    ensures var t := PassStep(e, s, exclusive); PassOk(t) && StreamOk(t) && s.births <= t.births
  {
    match s.pass
    case Reading(wanted) => assert Branch(s.log, wanted).ReadingStorage? ==> s.log.Some?;
    case Applying(storage, _, bucket) => AppliedKeeps(e, s, exclusive);
    case _ =>
  }

  lemma AppliedKeeps(e: Env, s: Stream, exclusive: bool)
    requires StreamInv(e, s) && s.pass.Applying?
    ensures var t := PassStep(e, s, exclusive); PassOk(t) && StreamOk(t) && s.births <= t.births
  {
  }

  lemma StreamKeeps(e: Env, e': Env, s: Stream, exclusive: bool, a: Action)
    requires StreamInv(e, s)
    ensures var t := Seen(e', StreamStep(e, s, exclusive, a)); StreamInv(e', t) && s.births <= t.births
  {
    if a.Step? { PassStepKeeps(e, s, exclusive); }
  }

  /** There is a log backup that a restore cannot share the cluster with. */
  predicate Exclusive(w: World)
  {
    w.stream.log.Some? && !w.env.nextToLog
  }

  /** A restore that is past its check, and excludes the log backup there is, was
      checked before that was created; and two that exclude each other are under
      way only after a log backup was created under a restore. */
  ghost predicate RestoresOk(w: World)
  {
    && (forall n :: n in w.restores.passes ==>
          && w.restores.passes[n].seen <= |w.stream.births|
          && (Exclusive(w) ==> w.restores.passes[n].seen < |w.stream.births|))
    && (UnderWay(w.restores) && Exclusive(w) ==> w.stream.overlapped)
  }

  ghost predicate Inv(w: World)
  {
    StreamInv(w.env, w.stream) && RestoresOk(w)
  }

  /** A restore is under way after a step only if it was before, or passed its check. */
  lemma UnderWayStep(w: World, a: Action)
    requires UnderWay(Apply(w, a).restores) && !UnderWay(w.restores)
    ensures a.BeginRestore? && RestoreAllowed(w)
  {
  }

  lemma SeenIsBounded(w: World, a: Action)
    requires RestoresOk(w) && |w.stream.births| <= |Apply(w, a).stream.births|
    ensures forall n :: n in Apply(w, a).restores.passes ==> Apply(w, a).restores.passes[n].seen <= |Apply(w, a).stream.births|
  {
  }

  /** A step makes a log backup out of none, or lets one go. */
  lemma LogStep(w: World, a: Action)
    ensures var v := Apply(w, a);
      && (v.stream.log.Some? && w.stream.log.None? ==>
            a.Step? && w.stream.pass.Applying? && |v.stream.births| == |w.stream.births| + 1
            && v.stream.overlapped == (w.stream.overlapped || (UnderWay(w.restores) && !w.env.nextToLog))
            && v.restores == w.restores && v.env == w.env)
      && (v.stream.log.None? || w.stream.log.Some? ==> v.stream.births == w.stream.births)
      && (w.stream.overlapped ==> v.stream.overlapped)
      && (w.env.nextToLog ==> v.env.nextToLog)
  {
  }

  lemma RestoresKeep(w: World, a: Action)
    requires RestoresOk(w)
    ensures RestoresOk(Apply(w, a))
  {
    var v := Apply(w, a);
    LogStep(w, a);
    SeenIsBounded(w, a);
    if UnderWay(v.restores) && !UnderWay(w.restores) {
      UnderWayStep(w, a);
    }
    if Exclusive(v) {
      forall n | n in v.restores.passes ensures v.restores.passes[n].seen < |v.stream.births| {
        PassSeen(w, a, n);
      }
    }
  }

  lemma PassSeen(w: World, a: Action, n: string)
    requires n in Apply(w, a).restores.passes
    ensures var p := Apply(w, a).restores.passes[n];
      || (n in w.restores.passes && p.seen == w.restores.passes[n].seen)
      || (a.BeginRestore? && RestoreAllowed(w) && p.seen == |w.stream.births|)
  {
  }

  lemma StepKeeps(w: World, a: Action)
    requires Inv(w)
    ensures Inv(Apply(w, a)) && w.stream.births <= Apply(w, a).stream.births
  {
    StreamKeeps(w.env, EnvStep(w.env, a), w.stream, UnderWay(w.restores) && !w.env.nextToLog, a);
    RestoresKeep(w, a);
  }

  lemma {:induction false} RunKeeps(w: World, actions: seq<Action>)
    requires Inv(w)
    ensures Inv(Exec(w, actions)) && w.stream.births <= Exec(w, actions).stream.births
    decreases |actions|
  {
    if actions != [] {
      StepKeeps(w, actions[0]);
      RunKeeps(Apply(w, actions[0]), actions[1..]);
      Longer(w.stream.births, Apply(w, actions[0]).stream.births, Exec(Apply(w, actions[0]), actions[1..]).stream.births);
    }
  }

  lemma Longer(a: seq<Birth>, b: seq<Birth>, c: seq<Birth>)
    requires a <= b <= c
    ensures a <= c
  {
  }

  /** In every run the log backup there is is the last one created, on the storage
      it was created on, and until it is gone its Secret holds the credentials of
      that storage: moving the stream to another storage, or turning it off, while
      passes stop anywhere, never takes them away or mixes them up. */
  lemma StreamHasItsSecret(spec: Option<seq<StorageSpec>>, nextToLog: bool, actions: seq<Action>)
    ensures StreamOk(Exec(Fresh(spec, nextToLog), actions).stream)
  {
    RunKeeps(Fresh(spec, nextToLog), actions);
  }

  /** The log backup there is, is still there after the actions. */
  predicate SameObject(w: World, actions: seq<Action>)
  {
    && w.stream.log.Some? && Exec(w, actions).stream.log.Some?
    && Exec(w, actions).stream.log.value.id == w.stream.log.value.id
  }

  /** Although every pass applies it again, a log backup is on the same storage at
      any two points of a run. */
  lemma StorageNeverChanges(w: World, actions: seq<Action>)
    requires Inv(w) && SameObject(w, actions)
    ensures Exec(w, actions).stream.log.value.storage == w.stream.log.value.storage
  {
    RunKeeps(w, actions);
  }

  // ------------------------------------------------------------------ readiness

  /** Exactly which step creates a log backup although the cluster has not been
      ready since its predecessor: the apply of a pass that found the predecessor,
      and so did not check, when that has gone in the meantime. */
  lemma UnreadyBirthStep(w: World, a: Action)
    requires Inv(w)
    ensures var v := Apply(w, a).stream;
      (|v.births| > |w.stream.births| && !v.births[|v.births| - 1].ready) <==>
        a.Step? && w.stream.pass.Applying? && w.stream.pass.found && w.stream.log.None? && !w.stream.wasReady
  {
  }

  /** Every log backup was created after the cluster was ready, with no seeding
      pending, at a time when there was none. */
  ghost predicate BirthsReady(s: Stream)
  {
    forall i :: 0 <= i < |s.births| ==> s.births[i].ready
  }

  /** With nobody else deleting it, a log backup that a pass has found stays, and
      is not being deleted, until the pass applies it. */
  ghost predicate FoundStays(s: Stream)
  {
    Decided(s.pass) && s.pass.found ==> s.log.Some? && !s.log.value.deleting
  }

  lemma {:induction false} ReadyRun(w: World, actions: seq<Action>)
    requires Inv(w) && BirthsReady(w.stream) && FoundStays(w.stream) && DeleteLogBackup !in actions
    ensures BirthsReady(Exec(w, actions).stream)
    decreases |actions|
  {
    if actions != [] {
      assert actions[0] in actions;
      StepKeeps(w, actions[0]);
      ReadyStep(w, actions[0]);
      ReadyRun(Apply(w, actions[0]), actions[1..]);
    }
  }

  lemma ReadyStep(w: World, a: Action)
    requires Inv(w) && BirthsReady(w.stream) && FoundStays(w.stream) && !a.DeleteLogBackup?
    ensures BirthsReady(Apply(w, a).stream) && FoundStays(Apply(w, a).stream)
  {
    UnreadyBirthStep(w, a);
    LogStep(w, a);
    if a.Step? && w.stream.pass.Reading? {
      assert Branch(w.stream.log, w.stream.pass.wanted).ReadingStorage? ==> w.stream.log.Some?;
    }
  }

  lemma {:induction false} ExecAppend(w: World, a: seq<Action>, b: seq<Action>)
    ensures Exec(w, a + b) == Exec(Exec(w, a), b)
    decreases |a|
  {
    if a == [] {
      assert a + b == b;
    } else {
      assert (a + b)[1..] == a[1..] + b;
      ExecAppend(Apply(w, a[0]), a[1..], b);
    }
  }

  lemma ExecOne(w: World, a: Action)
    ensures Exec(w, [a]) == Apply(w, a)
  {
    assert [a][1..] == [];
  }

  /** Going on by one action. */
  lemma Then(w: World, actions: seq<Action>, a: Action)
    ensures Exec(w, actions + [a]) == Apply(Exec(w, actions), a)
  {
    ExecAppend(w, actions, [a]);
    ExecOne(Exec(w, actions), a);
  }

  /** The state a run is in after its first n actions. */
  function After(w: World, actions: seq<Action>, n: nat): World
    requires n <= |actions|
  {
    Exec(w, actions[..n])
  }

  /** In the state after n actions the cluster is ready and its data source, if there
      is one, is done; and there is no log backup from then to the k-th. */
  ghost predicate ReadyFrom(w: World, actions: seq<Action>, n: nat, k: nat)
    requires n <= k <= |actions|
  {
    && After(w, actions, n).env.clusterReady && After(w, actions, n).env.seeded != Some(false)
    && forall m :: n <= m <= k ==> After(w, actions, m).stream.log.None?
  }

  lemma NextAfter(w: World, actions: seq<Action>, n: nat)
    requires n < |actions|
    ensures After(w, actions, n + 1) == Apply(After(w, actions, n), actions[n])
  {
    assert actions[..n + 1] == actions[..n] + [actions[n]];
    Then(w, actions[..n], actions[n]);
  }

  /** What history says of readiness is so of the states before. */
  lemma {:induction false} WasReadySince(spec: Option<seq<StorageSpec>>, nextToLog: bool, actions: seq<Action>, k: nat) returns (n: nat)
    requires k <= |actions| && After(Fresh(spec, nextToLog), actions, k).stream.wasReady
    ensures n <= k && ReadyFrom(Fresh(spec, nextToLog), actions, n, k)
    decreases k
  {
    var f := Fresh(spec, nextToLog);
    if k > 0 { NextAfter(f, actions, k - 1); }
    var w := After(f, actions, k);
    if w.env.clusterReady && w.env.seeded != Some(false) {
      n := k;
    } else {
      n := WasReadySince(spec, nextToLog, actions, k - 1);
    }
  }

  /** In every run in which nobody but the provider deletes the log backup, each is
      created after a state in which the cluster was ready and no seeding pending,
      and between that state and its creation there was no log backup. */
  lemma CreatedAfterReady(spec: Option<seq<StorageSpec>>, nextToLog: bool, actions: seq<Action>, k: nat) returns (n: nat)
    requires DeleteLogBackup !in actions && k < |actions|
    requires var f := Fresh(spec, nextToLog);
      After(f, actions, k).stream.log.None? && After(f, actions, k + 1).stream.log.Some?
    ensures n <= k && ReadyFrom(Fresh(spec, nextToLog), actions, n, k)
  {
    var f := Fresh(spec, nextToLog);
    NextAfter(f, actions, k);
    RunKeeps(f, actions[..k]);
    LogStep(After(f, actions, k), actions[k]);
    UnreadyBirthStep(After(f, actions, k), actions[k]);
    ReadyRun(f, actions[..k + 1]);
    n := WasReadySince(spec, nextToLog, actions, k);
  }

  // -------------------------------------------------------------------- buckets

  /** Exactly which step moves a log backup to another bucket: the apply of a pass
      that has read another one for its storage. */
  lemma BucketStep(w: World, a: Action)
    requires Inv(w) && w.stream.log.Some?
    requires Apply(w, a).stream.log.Some? && Apply(w, a).stream.log.value.id == w.stream.log.value.id
    ensures Apply(w, a).stream.log.value.bucket != w.stream.log.value.bucket <==>
            a.Step? && w.stream.pass.Applying? && w.stream.pass.bucket != w.stream.log.value.bucket
  {
  }

  /** BackupStorages that have a bucket keep it. */
  predicate KeepsBuckets(e: Env, a: Action)
  {
    a.SetStorage? && BucketOf(e, a.name).Some? ==> a.bucket == BucketOf(e, a.name)
  }

  predicate KeepsBucketsRun(w: World, actions: seq<Action>)
    decreases |actions|
  {
    actions == [] || (KeepsBuckets(w.env, actions[0]) && KeepsBucketsRun(Apply(w, actions[0]), actions[1..]))
  }

  ghost predicate BucketsOk(w: World)
  {
    && (w.stream.log.Some? ==> BucketOf(w.env, w.stream.log.value.storage) == Some(w.stream.log.value.bucket))
    && (w.stream.pass.WritingSecret? || w.stream.pass.Applying? ==>
          BucketOf(w.env, w.stream.pass.storage) == Some(w.stream.pass.bucket))
  }

  lemma BucketsStep(w: World, a: Action)
    requires Inv(w) && BucketsOk(w) && KeepsBuckets(w.env, a)
    ensures BucketsOk(Apply(w, a))
    ensures forall n :: BucketOf(w.env, n).Some? ==> BucketOf(Apply(w, a).env, n) == BucketOf(w.env, n)
  {
  }

  lemma {:induction false} BucketsRun(w: World, actions: seq<Action>)
    requires Inv(w) && BucketsOk(w) && KeepsBucketsRun(w, actions)
    ensures BucketsOk(Exec(w, actions))
    ensures forall n :: BucketOf(w.env, n).Some? ==> BucketOf(Exec(w, actions).env, n) == BucketOf(w.env, n)
    decreases |actions|
  {
    if actions != [] {
      StepKeeps(w, actions[0]);
      BucketsStep(w, actions[0]);
      BucketsRun(Apply(w, actions[0]), actions[1..]);
    }
  }

  /** As long as BackupStorages keep their buckets, a log backup streams to one
      bucket all its life. */
  lemma BucketNeverChanges(spec: Option<seq<StorageSpec>>, nextToLog: bool, before: seq<Action>, after: seq<Action>)
    requires KeepsBucketsRun(Fresh(spec, nextToLog), before)
    requires KeepsBucketsRun(Exec(Fresh(spec, nextToLog), before), after)
    requires SameObject(Exec(Fresh(spec, nextToLog), before), after)
    ensures var w := Exec(Fresh(spec, nextToLog), before);
      Exec(w, after).stream.log.value.bucket == w.stream.log.value.bucket
  {
    RunKeeps(Fresh(spec, nextToLog), before);
    BucketsRun(Fresh(spec, nextToLog), before);
    var w := Exec(Fresh(spec, nextToLog), before);
    BucketsRun(w, after);
    StorageNeverChanges(w, after);
  }

  // ------------------------------------------------------- restores and the stream

  /** A restore runs next to a log backup that it cannot share the cluster with. */
  predicate Conflict(w: World)
  {
    Restoring(w.restores) && Exclusive(w)
  }

  /** The step creates a BR Restore. */
  predicate StartsRestore(w: World, a: Action)
  {
    && a.StepRestore? && a.name in w.restores.passes && w.restores.passes[a.name].Prepared?
    && a.name !in w.restores.running
  }

  /** The step creates a log backup. */
  predicate CreatesLog(w: World, a: Action)
  {
    a.Step? && w.stream.pass.Applying? && w.stream.log.None?
  }

  /** Exactly which step makes a conflict: the creation of a log backup while a
      restore runs, or that of a BR Restore next to a log backup. The check of the
      restore did not see that log backup: it was created after it. */
  lemma ConflictStep(w: World, a: Action)
    requires Inv(w) && !Conflict(w)
    ensures Conflict(Apply(w, a)) <==>
            && !w.env.nextToLog
            && ((CreatesLog(w, a) && Restoring(w.restores)) || (StartsRestore(w, a) && w.stream.log.Some?))
    ensures StartsRestore(w, a) && Conflict(Apply(w, a)) ==> w.restores.passes[a.name].seen <= w.stream.log.value.id
  {
    var v := Apply(w, a);
    LogStep(w, a);
    if StartsRestore(w, a) {
      assert v.restores.running[a.name] && Restoring(v.restores);
    } else {
      RestoringStep(w, a);
    }
  }

  lemma RestoringStep(w: World, a: Action)
    requires !StartsRestore(w, a)
    ensures Restoring(Apply(w, a).restores) ==> Restoring(w.restores)
    ensures Restoring(w.restores) && !a.RestoreEnds? ==> Restoring(Apply(w, a).restores)
  {
    var r, v := w.restores, Apply(w, a).restores;
    if Restoring(v) {
      var n :| n in v.running && v.running[n];
      assert n in r.running && r.running[n];
    }
    if Restoring(r) && !a.RestoreEnds? {
      var n :| n in r.running && r.running[n];
      assert n in v.running && v.running[n];
    }
  }

  /** In every run a restore runs next to a log backup that excludes it only if a
      log backup was created while a restore was under way: from its check on. */
  lemma ConflictsComeFromCreation(spec: Option<seq<StorageSpec>>, nextToLog: bool, actions: seq<Action>)
    ensures var w := Exec(Fresh(spec, nextToLog), actions); !w.stream.overlapped ==> !Conflict(w)
  {
    RunKeeps(Fresh(spec, nextToLog), actions);
  }

  // --------------------------------------------------------- undisturbed passes

  /** A pass of the Instance with nothing in between; it is over after five steps. */
  const PASS: seq<Action> := [Begin, Step, Step, Step, Step, Step]

  /** What such a pass makes of the log backup. */
  function SettledLog(e: Env, s: Stream): Option<LogBackup>
  {
    var wanted := Wanted(e.spec);
    match s.log
    case Some(b) =>
      if b.deleting then s.log
      else if wanted != Some(b.storage) then Marked(s.log)
      else if BucketOf(e, b.storage).None? then s.log
      else Some(b.(bucket := BucketOf(e, b.storage).value))
    case None =>
      if wanted.Some? && e.clusterReady && e.seeded != Some(false) && BucketOf(e, wanted.value).Some?
      then Some(LogBackup(|s.births|, wanted.value, BucketOf(e, wanted.value).value, false))
      else None
  }

  /** And of its Secret. */
  function SettledSecret(e: Env, s: Stream): Option<string>
  {
    if SettledLog(e, s).Some? && !SettledLog(e, s).value.deleting && BucketOf(e, SettledLog(e, s).value.storage).Some?
    then Some(SettledLog(e, s).value.storage)
    else if s.log.None? && Wanted(e.spec).None? then None
    else s.secret
  }

  /** The pass ends with a configuration error: it wants a stream on a storage that
      is not there or not S3. */
  predicate Misconfigured(e: Env, s: Stream)
  {
    && Wanted(e.spec).Some? && BucketOf(e, Wanted(e.spec).value).None?
    && if s.log.Some? then !s.log.value.deleting && s.log.value.storage == Wanted(e.spec).value
       else e.clusterReady && e.seeded != Some(false)
  }

  function Pass1(e: Env, s: Stream, x: bool): Stream { Seen(e, PassStep(e, s, x)) }

  lemma ExecPass(w: World)
    requires w.stream.pass.Idle?
    ensures var x := UnderWay(w.restores) && !w.env.nextToLog;
      var s := Seen(w.env, w.stream.(pass := Reading(Wanted(w.env.spec))));
      Exec(w, PASS) == World(w.env, Pass1(w.env, Pass1(w.env, Pass1(w.env, Pass1(w.env, Pass1(w.env, s, x), x), x), x), x), w.restores)
  {
    var w1 := Apply(w, Begin);
    var w2 := Apply(w1, Step);
    var w3 := Apply(w2, Step);
    var w4 := Apply(w3, Step);
    var w5 := Apply(w4, Step);
    assert PASS[1..] == [Step, Step, Step, Step, Step] && [Step, Step, Step, Step, Step][1..] == [Step, Step, Step, Step];
    assert [Step, Step, Step, Step][1..] == [Step, Step, Step] && [Step, Step, Step][1..] == [Step, Step];
    assert [Step, Step][1..] == [Step] && [Step][1..] == [];
    assert Exec(w, PASS) == Exec(w1, [Step, Step, Step, Step, Step]) == Exec(w2, [Step, Step, Step, Step]);
    assert Exec(w2, [Step, Step, Step, Step]) == Exec(w3, [Step, Step, Step]) == Exec(w4, [Step, Step]) == Exec(w5, [Step]);
    assert Exec(w5, [Step]) == Apply(w5, Step);
  }

  /** The outcome of an undisturbed pass. */
  lemma PassSettles(w: World)
    requires w.stream.pass.Idle?
    ensures var v := Exec(w, PASS);
      && v.env == w.env && v.restores == w.restores && v.stream.pass.Idle?
      && v.stream.log == SettledLog(w.env, w.stream) && v.stream.secret == SettledSecret(w.env, w.stream)
      && |v.stream.births| == |w.stream.births| + (if w.stream.log.None? && v.stream.log.Some? then 1 else 0)
  {
    ExecPass(w);
    var x := UnderWay(w.restores) && !w.env.nextToLog;
    var s := Seen(w.env, w.stream.(pass := Reading(Wanted(w.env.spec))));
    if w.stream.log.Some? { FoundSettles(w.env, s, x); } else { NoneSettles(w.env, s, x); }
  }

  predicate SettlesTo(e: Env, s: Stream, t: Stream)
  {
    && t.pass.Idle? && t.log == SettledLog(e, s) && t.secret == SettledSecret(e, s)
    && |t.births| == |s.births| + (if s.log.None? && t.log.Some? then 1 else 0)
  }

  lemma FoundSettles(e: Env, s: Stream, x: bool)
    requires s.pass == Reading(Wanted(e.spec)) && s.log.Some?
    ensures SettlesTo(e, s, Pass1(e, Pass1(e, Pass1(e, Pass1(e, Pass1(e, s, x), x), x), x), x))
  {
    var s1 := Pass1(e, s, x);
    var s2 := Pass1(e, s1, x);
    assert s1.log == s.log && s1.secret == s.secret && s1.births == s.births && s1.pass == Branch(s.log, Wanted(e.spec));
    if s1.pass.ReadingStorage? && BucketOf(e, s1.pass.storage).Some? {
      var s3 := Pass1(e, s2, x);
      assert s2.log == s.log && s2.pass.WritingSecret?;
      assert s3.log == s.log && s3.pass.Applying? && s3.secret == Some(s1.pass.storage);
    } else {
      assert s2.pass.Idle?;
    }
  }

  lemma NoneSettles(e: Env, s: Stream, x: bool)
    requires s.pass == Reading(Wanted(e.spec)) && s.log.None?
    ensures SettlesTo(e, s, Pass1(e, Pass1(e, Pass1(e, Pass1(e, Pass1(e, s, x), x), x), x), x))
  {
    var s1 := Pass1(e, s, x);
    var s2 := Pass1(e, s1, x);
    assert s1.log == s.log && s1.secret == s.secret && s1.births == s.births;
    if s2.pass.ReadingStorage? {
      var s3 := Pass1(e, s2, x);
      assert s2.log.None? && s2.births == s.births && s2.secret == s.secret;
      if s3.pass.WritingSecret? {
        var s4 := Pass1(e, s3, x);
        assert s4.log.None? && s4.births == s.births && s4.secret == Some(s2.pass.storage) && s4.pass.Applying?;
      } else {
        assert s3.pass.Idle? && s3.log.None?;
      }
    } else {
      assert s2.pass.Idle? && s2.log.None?;
    }
  }
}
