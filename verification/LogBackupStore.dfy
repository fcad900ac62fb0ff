/** One pass of the Instance, or of a restore, over the stored objects, as steps of
    a run. */
module LogBackupStore {
  import opened Wrappers
  import opened LogBackupRun

  datatype Outcome = Done | ConfigError

  datatype Block = Free | WaitForStop | TurnOff

  class Store {
    var spec: Option<seq<StorageSpec>>
    var storages: map<string, Option<string>>
    var clusterReady: bool
    var seeded: Option<bool>
    var nextToLog: bool
    var log: Option<LogBackup>
    var secret: Option<string>
    /** How many log backups were ever created, for the next object's identity. */
    var created: nat
    /** The BR Restores, and whether each still runs, and the Secrets for them. */
    var running: map<string, bool>
    var restoreSecrets: set<string>
    /** The state of the run this store is in. */
    ghost var world: World

    ghost predicate Valid()
      reads this
    {
      && world.env == Env(spec, storages, clusterReady, seeded, nextToLog)
      && world.stream.log == log && world.stream.secret == secret && |world.stream.births| == created
      && world.restores.running == running && world.restores.secrets == restoreSecrets
    }

    method PitrStorage() returns (storage: Option<string>)
      ensures storage == Wanted(spec)
      ensures forall s :: storage == Some(s) <==> Wants(spec, s)
    {
      WantedIsFirst(spec);
      if spec.None? {
        return None;
      }
      var listed := spec.value;
      for i := 0 to |listed|
        invariant FirstEnabled(listed) == FirstEnabled(listed[i..])
      {
        if listed[i].pitr {
          return Some(listed[i].ref);
        }
      }
      return None;
    }

    /** BR needs PD and TiKV serving, and can't restore while a log backup runs. */
    method ReadyForLogBackup() returns (ready: bool)
      requires Valid()
      ensures ready <==> clusterReady && seeded != Some(false)
    {
      if seeded.Some? && !seeded.value {
        return false;
      }
      return clusterReady;
    }

    /** Runs a log backup while a storage has point-in-time recovery enabled: the
        pass is six steps of a run. It ends with a configuration error exactly when
        the storage it wants to stream to is not there or not S3. */
    method SyncLogBackup() returns (outcome: Outcome)
      requires Valid() && world.stream.pass.Idle?
      modifies this`log, this`secret, this`created, this`world
      ensures Valid() && world == Exec(old(world), PASS) && world.stream.pass.Idle?
      ensures log == SettledLog(old(world).env, old(world).stream) && secret == SettledSecret(old(world).env, old(world).stream)
      ensures outcome.ConfigError? <==> Misconfigured(old(world).env, old(world).stream)
      ensures old(log).None? ==>
                (log.Some? <==> clusterReady && seeded != Some(false)
                                && exists s :: Wants(spec, s) && s in storages && storages[s].Some?)
      ensures old(log).None? && log.Some? ==>
                && Wants(spec, log.value.storage) && log.value.storage in storages
                && storages[log.value.storage] == Some(log.value.bucket)
                && !log.value.deleting && secret == Some(log.value.storage)
      ensures old(log).Some? ==>
                && log.Some? && log.value.id == old(log).value.id && log.value.storage == old(log).value.storage
                && (log.value.deleting <==> old(log).value.deleting || !Wants(spec, log.value.storage))
                && log.value.bucket ==
                   if !log.value.deleting && log.value.storage in storages && storages[log.value.storage].Some?
                   then storages[log.value.storage].value else old(log).value.bucket
      ensures old(log).None? && (forall s :: !Wants(spec, s)) ==> secret.None?
    {
      WantedIsFirst(spec);
      PassSettles(world);
      outcome := Settle();
      world := Exec(world, PASS);
    }

    /** The reads and writes of the pass, in order. */
    method Settle() returns (outcome: Outcome)
      requires Valid()
      modifies this`log, this`secret, this`created
      ensures log == SettledLog(world.env, world.stream) && secret == SettledSecret(world.env, world.stream)
      ensures created == |world.stream.births| + (if old(log).None? && log.Some? then 1 else 0)
      ensures outcome.ConfigError? <==> Misconfigured(world.env, world.stream)
    {
      var storage := PitrStorage();
      if log.Some? && log.value.deleting {
        return Done;
      }
      if log.Some? && (storage.None? || log.value.storage != storage.value) {
        log := Some(log.value.(deleting := true));
        return Done;
      }
      if storage.None? {
        secret := None;
        return Done;
      }
      if log.None? {
        var ready := ReadyForLogBackup();
        if !ready {
          return Done;
        }
      }
      if storage.value !in storages || storages[storage.value].None? {
        return ConfigError;
      }
      secret := Some(storage.value);
      ApplyLogBackup(storage.value, storages[storage.value].value);
      return Done;
    }

    /** Server-side apply: creates the log backup or updates the one that is there. */
    method ApplyLogBackup(storage: string, bucket: string)
      modifies this`log, this`created
      ensures log == Some(if old(log).Some? then old(log).value.(storage := storage, bucket := bucket)
                          else LogBackup(old(created), storage, bucket, false))
      ensures created == old(created) + if old(log).Some? then 0 else 1
    {
      if log.Some? {
        log := Some(log.value.(storage := storage, bucket := bucket));
      } else {
        log := Some(LogBackup(created, storage, bucket, false));
        created := created + 1;
      }
    }

    /** What the log backup makes of a restore that has not started. */
    method RestoreBlocked() returns (block: Block)
      ensures block.Free? <==> log.None? || (!log.value.deleting && nextToLog)
      ensures block.WaitForStop? <==> log.Some? && log.value.deleting
    {
      if log.None? {
        return Free;
      }
      if log.value.deleting {
        return WaitForStop;
      }
      if nextToLog {
        return Free;
      }
      return TurnOff;
    }

    /** A pass on a restore into the Instance that no other pass is at: its check,
        its Secret and its BR Restore are steps of a run. One that started is not
        held up again. */
    method SyncRestore(name: string) returns (block: Block)
      requires Valid() && name !in world.restores.passes
      modifies this`running, this`restoreSecrets, this`world
      ensures Valid() && name !in world.restores.passes
      ensures world == if name in old(running) then old(world)
                       else Apply(Apply(Apply(old(world), BeginRestore(name)), StepRestore(name)), StepRestore(name))
      ensures block.Free? <==> name in running
      ensures running == if block.Free? && name !in old(running) then old(running)[name := true] else old(running)
    {
      if name in running {
        return Free;
      }
      block := RestoreBlocked();
      world := Apply(world, BeginRestore(name));
      if block.Free? {
        restoreSecrets := restoreSecrets + {name};
        running := running[name := true];
      }
      world := Apply(Apply(world, StepRestore(name)), StepRestore(name));
    }
  }
}
