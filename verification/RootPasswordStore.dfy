/** The passes on the root password over the stored Secrets, as steps of a run. */
module RootPasswordStore {
  import opened Wrappers
  import opened Slots
  import opened Credentials
  import opened RootPasswordRun

  /** The run's Secrets are the stored ones of an Instance's or a Backup's name. */
  ghost predicate Stored(secrets: map<string, Secret>, kept: map<string, Secret>)
  {
    forall n: string :: Get(kept, n) == Get(secrets, RootSecretName(n))
  }

  lemma SameName(n: string, m: string)
    requires RootSecretName(n) == RootSecretName(m)
    ensures n == m
  {
    NamesMeetExactly(n, m);
  }

  /** Writing a Secret under its name, and under the name it belongs to. */
  lemma StoredPut(secrets: map<string, Secret>, kept: map<string, Secret>, n: string, s: Secret)
    requires Stored(secrets, kept)
    ensures Stored(secrets[RootSecretName(n) := s], kept[n := s])
  {
    forall m: string ensures Get(kept[n := s], m) == Get(secrets[RootSecretName(n) := s], RootSecretName(m)) {
      if RootSecretName(m) == RootSecretName(n) { SameName(m, n); }
      assert Get(kept, m) == Get(secrets, RootSecretName(m));
    }
  }

  lemma StoredEnsured(secrets: map<string, Secret>, kept: map<string, Secret>, uid: nat, i: string, generated: string)
    requires Stored(secrets, kept)
    ensures Stored(Ensured(secrets, uid, RootSecretName(i), generated), Ensured(kept, uid, i, generated))
  {
    assert Get(kept, i) == Get(secrets, RootSecretName(i));
    if i in kept { StoredPut(secrets, kept, i, kept[i].(deleting := true)); }
    StoredPut(secrets, kept, i, Secret(Some(uid), false, generated, None));
  }

  lemma StoredRecord(secrets: map<string, Secret>, kept: map<string, Secret>, uid: nat, i: string, backupUid: nat, b: string)
    requires Stored(secrets, kept)
    ensures Stored(RecordedIn(secrets, uid, RootSecretName(i), backupUid, BackupRootSecretName(b)), RecordedIn(kept, uid, i, backupUid, b))
  {
    NamesMeetExactly(b, b);
    assert Get(kept, i) == Get(secrets, RootSecretName(i)) && Get(kept, b) == Get(secrets, RootSecretName(b));
    StoredPut(secrets, kept, b, Secret(Some(backupUid), false, PasswordOf(kept, uid, i), None));
  }

  lemma StoredFirst(secrets: map<string, Secret>, kept: map<string, Secret>, b: string, i: string)
    requires Stored(secrets, kept)
    ensures FirstPassword(secrets, [BackupRootSecretName(b), RootSecretName(i)]) == FirstPassword(kept, [b, i])
  {
    NamesMeetExactly(b, b);
    assert Get(kept, i) == Get(secrets, RootSecretName(i)) && Get(kept, b) == Get(secrets, RootSecretName(b));
    var full, short := [BackupRootSecretName(b), RootSecretName(i)], [b, i];
    assert full[1..] == [RootSecretName(i)] && short[1..] == [i];
    assert FirstPassword(secrets, [RootSecretName(i)]) == FirstPassword(kept, [i]) by {
      assert [RootSecretName(i)][1..] == [] && [i][1..] == [];
    }
  }

  lemma StoredAdopted(secrets: map<string, Secret>, kept: map<string, Secret>, uid: nat, t: string, b: string, i: string, completed: Time)
    requires Stored(secrets, kept)
    ensures Stored(AdoptedIn(secrets, uid, RootSecretName(t), [BackupRootSecretName(b), RootSecretName(i)], completed),
                   AdoptedIn(kept, uid, t, [b, i], completed))
  {
    StoredFirst(secrets, kept, b, i);
    var after := Adopt(Get(kept, t), uid, Restored(FirstPassword(kept, [b, i]), completed));
    assert Get(kept, t) == Get(secrets, RootSecretName(t));
    if after.Some? { StoredPut(secrets, kept, t, after.value); }
  }

  class Store {
    const credentials: CredentialStore
    /** The state of the run the Secrets are in. */
    ghost var world: World

    ghost predicate Valid()
      reads this, credentials
    {
      Stored(credentials.secrets, world.secrets)
    }

    constructor (credentials: CredentialStore, ghost world: World)
      requires Stored(credentials.secrets, world.secrets)
      ensures Valid() && this.credentials == credentials && this.world == world
    {
      this.credentials := credentials;
      this.world := world;
    }

    /** The pass of an Instance: its root password, unless another's Secret of its
        name has to go first. */
    method SyncInstance(name: string, uid: nat, generated: string) returns (password: Option<string>)
      requires Valid() && name in world.instances && world.instances[name].uid == uid && generated != ""
      modifies this, credentials
      ensures Valid() && world == Apply(old(world), EnsurePassword(name, generated))
      ensures password.Some? ==> password.value == Password(world, name) != ""
    {
      password := credentials.EnsureRootPassword(uid, RootSecretName(name), generated);
      StoredEnsured(old(credentials.secrets), world.secrets, uid, name, generated);
      world := Apply(world, EnsurePassword(name, generated));
      assert Get(world.secrets, name) == Get(credentials.secrets, RootSecretName(name));
    }

    /** The pass of a Backup, before BR takes it. */
    method SyncBackup(name: string, uid: nat, source: string, sourceUid: nat)
      requires Valid() && CanRecord(world, name) && world.backups[name].uid == uid && world.backups[name].source == source
      requires world.instances[source].uid == sourceUid
      modifies this, credentials
      ensures Valid() && world == Apply(old(world), RecordBackup(name))
    {
      StoredRecord(credentials.secrets, world.secrets, sourceUid, source, uid, name);
      credentials.RecordBackupRootPassword(sourceUid, RootSecretName(source), uid, BackupRootSecretName(name));
      world := Apply(world, RecordBackup(name));
    }

    /** The pass of a restore that has completed; false when the root password of
        its backup is not known. */
    method SyncRestore(name: string, target: string, targetUid: nat, backup: string, source: string, completed: Time)
      returns (known: bool)
      requires Valid() && CanSync(world, name)
      requires var r := world.restores[name];
        r.target == target && r.backup == backup && r.completed == Some(completed) && world.backups[backup].source == source
      requires world.instances[target].uid == targetUid
      modifies this, credentials
      ensures Valid() && world == Apply(old(world), Action.SyncRestore(name))
      ensures known <==> Carried(old(world), backup).Some?
    {
      StoredFirst(credentials.secrets, world.secrets, backup, source);
      StoredAdopted(credentials.secrets, world.secrets, targetUid, target, backup, source, completed);
      known := credentials.AdoptRestoredRootPassword(targetUid, RootSecretName(target),
                                                     [BackupRootSecretName(backup), RootSecretName(source)], completed);
      world := Apply(world, Action.SyncRestore(name));
    }
  }
}
