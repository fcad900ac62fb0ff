/** Runs of Instances, backups and restores, with the root password mysql.user
    really has as history: does the Secret the provider keeps stay that password,
    through restores and clones of clones? */
module RootPasswordRun {
  import opened Wrappers
  import opened Slots
  import opened Credentials

  /** An Instance: as history the restore its root Secret was adopted from, the
      password its database was bootstrapped with, the one root has in it (None
      before), and the last restore into it. */
  datatype Instance = Instance(uid: nat, from: Option<string>, initial: string, db: Option<string>, last: Option<string>)

  /** A Backup of an Instance: whether a pass has recorded the password and handed
      it to BR, and the password in the snapshot, None before BR takes it. */
  datatype Backup = Backup(uid: nat, source: string, passed: bool, data: Option<string>)

  /** A Restore: the password its data brings, when BR completed it, if it did,
      and whether a pass has adopted it. */
  datatype Restore = Restore(target: string, backup: string, brings: string, completed: Option<Time>, adopted: bool)

  /** secrets are the Secrets that root passwords are in, under the name of the
      Instance or Backup that they belong to: by NamesMeetExactly two of these have
      one Secret exactly when they have one name. uids counts what was handed out. */
  datatype World = World(
    now: Time,
    uids: nat,
    secrets: map<string, Secret>,
    instances: map<string, Instance>,
    backups: map<string, Backup>,
    restores: map<string, Restore>)

  datatype Action =
    | Tick(to: Time)
    | CreateInstance(instance: string)
    | EnsurePassword(instance: string, generated: string)
    | Bootstrap(instance: string)
    | CreateBackup(backup: string, source: string)
    | RecordBackup(backup: string)
    | Snapshot(backup: string)
    | CreateRestore(restore: string, target: string, backup: string)
    | Complete(restore: string)
    | SyncRestore(restore: string)
    | SecretGone(name: string)

  predicate Running(w: World, i: string)
  {
    i in w.instances && w.instances[i].db.Some?
  }

  /** The root password in an Instance's Secret, "" when it has none. */
  function Password(w: World, i: string): string
    requires i in w.instances
  {
    PasswordOf(w.secrets, w.instances[i].uid, i)
  }

  function Created(w: World, i: string): World
  {
    w.(uids := w.uids + 1, instances := w.instances[i := Instance(w.uids, None, "", None, None)])
  }

  function Bootstrapped(w: World, i: string): World
    requires i in w.instances
  {
    w.(instances := w.instances[i := w.instances[i].(db := Some(Password(w, i)), initial := Password(w, i))])
  }

  function Requested(w: World, b: string, i: string): World
  {
    w.(uids := w.uids + 1, backups := w.backups[b := Backup(w.uids, i, false, None)])
  }

  predicate CanRecord(w: World, b: string)
  {
    b in w.backups && Running(w, w.backups[b].source)
  }

  /** A pass on a Backup: the record, and then BR may go on. */
  function Recorded(w: World, b: string): World
    requires CanRecord(w, b)
  {
    var k := w.backups[b];
    w.(secrets := RecordedIn(w.secrets, w.instances[k.source].uid, k.source, k.uid, b), backups := w.backups[b := k.(passed := true)])
  }

  predicate CanSnapshot(w: World, b: string)
  {
    b in w.backups && w.backups[b].passed && w.backups[b].data.None? && Running(w, w.backups[b].source)
  }

  function Snapshotted(w: World, b: string): World
    requires CanSnapshot(w, b)
  {
    w.(backups := w.backups[b := w.backups[b].(data := w.instances[w.backups[b].source].db)])
  }

  function Restoring(w: World, r: string, i: string, b: string): World
    requires b in w.backups && w.backups[b].data.Some?
  {
    w.(restores := w.restores[r := Restore(i, b, w.backups[b].data.value, None, false)])
  }

  predicate CanComplete(w: World, r: string)
  {
    r in w.restores && w.restores[r].completed.None? && w.restores[r].target in w.instances
  }

  function Completed(w: World, r: string): World
    requires CanComplete(w, r)
  {
    var i := w.restores[r].target;
    w.(restores := w.restores[r := w.restores[r].(completed := Some(w.now))],
       instances := w.instances[i := w.instances[i].(db := Some(w.restores[r].brings), last := Some(r))])
  }

  predicate CanSync(w: World, r: string)
  {
    && r in w.restores && w.restores[r].completed.Some?
    && w.restores[r].target in w.instances && w.restores[r].backup in w.backups
  }

  /** Where a pass on a restore of the backup looks for its root password. */
  function Sources(w: World, b: string): seq<string>
    requires b in w.backups
  {
    [b, w.backups[b].source]
  }

  /** The root password a pass takes the backup's data to carry. */
  function Carried(w: World, b: string): Option<string>
    requires b in w.backups
  {
    FirstPassword(w.secrets, Sources(w, b))
  }

  function Synced(w: World, r: string): World
    requires CanSync(w, r)
  {
    var k := w.restores[r];
    var known := Carried(w, k.backup).Some?;
    var n := w.instances[k.target];
    w.(secrets := AdoptedIn(w.secrets, n.uid, k.target, Sources(w, k.backup), k.completed.value),
       restores := w.restores[r := k.(adopted := k.adopted || known)],
       instances := w.instances[k.target :=
         n.(from := if known && Yields(Get(w.secrets, k.target), k.completed.value) then Some(r) else n.from)])
  }

  function Apply(w: World, a: Action): World
  {
    match a
    case Tick(to) => if w.now <= to then w.(now := to) else w
    case CreateInstance(i) => if i !in w.instances then Created(w, i) else w
    case EnsurePassword(i, pw) =>
      if i in w.instances && pw != "" then w.(secrets := Ensured(w.secrets, w.instances[i].uid, i, pw)) else w
    case Bootstrap(i) => if i in w.instances && w.instances[i].db.None? && Password(w, i) != "" then Bootstrapped(w, i) else w
    case CreateBackup(b, i) => if b !in w.backups && i in w.instances then Requested(w, b, i) else w
    case RecordBackup(b) => if CanRecord(w, b) then Recorded(w, b) else w
    case Snapshot(b) => if CanSnapshot(w, b) then Snapshotted(w, b) else w
    case CreateRestore(r, i, b) =>
      if r !in w.restores && Running(w, i) && b in w.backups && w.backups[b].data.Some? then Restoring(w, r, i, b) else w
    case Complete(r) => if CanComplete(w, r) then Completed(w, r) else w
    case SyncRestore(r) => if CanSync(w, r) then Synced(w, r) else w
    case SecretGone(n) => if n in w.secrets && w.secrets[n].deleting then w.(secrets := w.secrets - {n}) else w
  }

  function Exec(w: World, actions: seq<Action>): World
    decreases |actions|
  {
    if actions == [] then w else Exec(Apply(w, actions[0]), actions[1..])
  }

  // ------------------------------------------------- what the environment keeps

  predicate CompletedInto(w: World, r: string, i: string)
  {
    r in w.restores && w.restores[r].target == i && w.restores[r].completed.Some?
  }

  /** Every restore that completed into the Instance has been adopted. */
  predicate Reconciled(w: World, i: string)
  {
    forall r :: r in w.restores && CompletedInto(w, r, i) ==> w.restores[r].adopted
  }

  /** No backup of the Instance lies between its record and its snapshot. */
  predicate NoOpenBackup(w: World, i: string)
  {
    forall b :: b in w.backups && w.backups[b].source == i && w.backups[b].passed ==> w.backups[b].data.Some?
  }

  /** No other restore completed into the Instance in this second. */
  predicate FreshSecond(w: World, i: string)
  {
    forall r :: r in w.restores && CompletedInto(w, r, i) ==> Second(w.restores[r].completed.value) < Second(w.now)
  }

  /** No Backup bears the name of an Instance, no backup overlaps a restore into
      the same Instance that is not adopted yet, and restores into an Instance
      complete in distinct seconds. */
  predicate Allowed(w: World, a: Action)
  {
    && (a.CreateInstance? ==> a.instance !in w.backups)
    && (a.CreateBackup? ==> a.backup !in w.instances)
    && (a.RecordBackup? && a.backup in w.backups && !w.backups[a.backup].passed ==> Reconciled(w, w.backups[a.backup].source))
    && (a.Complete? && a.restore in w.restores ==>
          NoOpenBackup(w, w.restores[a.restore].target) && FreshSecond(w, w.restores[a.restore].target))
  }

  predicate AllowedRun(w: World, actions: seq<Action>)
    decreases |actions|
  {
    actions == [] || (Allowed(w, actions[0]) && AllowedRun(Apply(w, actions[0]), actions[1..]))
  }

  // ---------------------------------------------------------------- invariant

  /** The Secret holds a password, is the owner's and is not being deleted. */
  predicate Holds(secrets: map<string, Secret>, n: string, uid: nat)
  {
    n in secrets && secrets[n].owner == Some(uid) && !secrets[n].deleting && secrets[n].password != ""
  }

  /** A recorded password is the one in the snapshot, or will be. */
  ghost predicate BackupOk(w: World, b: string)
    requires b in w.backups
  {
    var k := w.backups[b];
    && k.source in w.instances && b !in w.instances && k.uid < w.uids
    && if !k.passed then b !in w.secrets && k.data.None?
       else
         && Running(w, k.source) && Holds(w.secrets, b, k.uid)
         && w.secrets[b].password == if k.data.Some? then k.data.value else w.instances[k.source].db.value
  }

  ghost predicate RestoreOk(w: World, r: string)
    requires r in w.restores
  {
    var k := w.restores[r];
    && Running(w, k.target) && k.backup in w.backups && w.backups[k.backup].data == Some(k.brings)
    && (k.completed.Some? ==> k.completed.value <= w.now)
    && (k.adopted ==> k.completed.Some?)
  }

  /** The database has what the last completed restore brought, or what it was
      bootstrapped with if there was none. */
  ghost predicate DatabaseOk(w: World, i: string)
    requires i in w.instances
  {
    var n := w.instances[i];
    match n.last
    case None =>
      && (n.db.Some? ==> n.db.value == n.initial)
      && forall q :: q in w.restores && w.restores[q].target == i ==> w.restores[q].completed.None?
    case Some(r) =>
      && CompletedInto(w, r, i) && n.db == Some(w.restores[r].brings)
      && forall q :: q in w.restores && w.restores[q].target == i && w.restores[q].completed.Some? && q != r ==>
           Second(w.restores[q].completed.value) < Second(w.restores[r].completed.value)
  }

  /** The Secret has what the latest adopted restore brought, or the password the
      database was bootstrapped with if none was adopted. */
  ghost predicate SecretOk(w: World, i: string)
    requires i in w.instances
  {
    var n := w.instances[i];
    && (i in w.secrets || n.db.Some? ==> Holds(w.secrets, i, n.uid))
    && match n.from
       case None =>
         && (i in w.secrets ==> w.secrets[i].restoredAt.None? && (n.db.Some? ==> w.secrets[i].password == n.initial))
         && forall q :: q in w.restores && w.restores[q].target == i ==> !w.restores[q].adopted
       case Some(r) =>
         && i in w.secrets && CompletedInto(w, r, i) && w.restores[r].adopted
         && w.secrets[i].password == w.restores[r].brings
         && w.secrets[i].restoredAt == Some(Second(w.restores[r].completed.value))
         && forall q :: q in w.restores && w.restores[q].target == i && w.restores[q].adopted && w.restores[q].completed.Some? ==>
              Second(w.restores[q].completed.value) <= Second(w.restores[r].completed.value)
  }

  ghost predicate BackupsOk(w: World)
  {
    forall b :: b in w.backups ==> BackupOk(w, b)
  }

  ghost predicate RestoresOk(w: World)
  {
    forall r :: r in w.restores ==> RestoreOk(w, r)
  }

  ghost predicate InstancesOk(w: World)
  {
    forall i :: i in w.instances ==> DatabaseOk(w, i) && SecretOk(w, i)
  }

  ghost predicate Inv(w: World)
  {
    && BackupsOk(w) && RestoresOk(w) && InstancesOk(w)
    && (forall n :: n in w.secrets ==> n in w.instances || n in w.backups)
  }

  /** With every completed restore adopted, the Secret is the database's password. */
  lemma ReconciledSecretIsRight(w: World, i: string)
    requires i in w.instances && DatabaseOk(w, i) && SecretOk(w, i)
    requires Running(w, i) && Reconciled(w, i)
    ensures w.instances[i].db == Some(Password(w, i))
  {
    if w.instances[i].last.Some? {
      assert CompletedInto(w, w.instances[i].last.value, i);
    }
  }

  // -------------------------------------------------------------- preservation

  /** What is said of one Instance only depends on it, its Secret and the restores
      into it. */
  lemma SameFacts(w: World, v: World, i: string)
    requires i in w.instances && i in v.instances && w.instances[i] == v.instances[i] && Get(w.secrets, i) == Get(v.secrets, i)
    requires forall r :: r in w.restores && w.restores[r].target == i ==> r in v.restores && v.restores[r] == w.restores[r]
    requires forall r :: r in v.restores && v.restores[r].target == i && (v.restores[r].completed.Some? || v.restores[r].adopted) ==>
               r in w.restores && v.restores[r] == w.restores[r]
    ensures DatabaseOk(w, i) ==> DatabaseOk(v, i)
    ensures SecretOk(w, i) ==> SecretOk(v, i)
  {
  }

  /** The Instances when neither they, their Secrets nor restores change. */
  lemma SameInstances(w: World, v: World)
    requires InstancesOk(w) && v.instances == w.instances && v.restores == w.restores
    requires forall i :: i in w.instances ==> Get(v.secrets, i) == Get(w.secrets, i)
    ensures InstancesOk(v)
  {
    forall j | j in v.instances ensures DatabaseOk(v, j) && SecretOk(v, j) { SameFacts(w, v, j); }
  }

  /** A step on one restore into t only concerns t. */
  lemma OthersKeep(w: World, v: World, r: string, t: string)
    requires InstancesOk(w)
    requires r in w.restores && w.restores[r].target == t && t in w.instances
    requires r in v.restores && v.restores[r].target == t && v.restores == w.restores[r := v.restores[r]]
    requires t in v.instances && v.instances == w.instances[t := v.instances[t]]
    requires forall j :: j in w.instances && j != t ==> Get(v.secrets, j) == Get(w.secrets, j)
    ensures forall j :: j in v.instances && j != t ==> DatabaseOk(v, j) && SecretOk(v, j)
  {
    forall j | j in v.instances && j != t ensures DatabaseOk(v, j) && SecretOk(v, j) {
      SameFacts(w, v, j);
    }
  }

  /** What is said of the backups only depends on their Secrets, on which databases
      are up, and on the password in those a snapshot is still to be taken of. */
  lemma SameBackups(w: World, v: World)
    requires BackupsOk(w) && v.backups == w.backups && w.uids <= v.uids
    requires forall b :: b in w.backups ==> Get(v.secrets, b) == Get(w.secrets, b) && b !in v.instances
    requires forall i :: i in w.instances ==> i in v.instances
    requires forall i :: Running(w, i) ==> Running(v, i) && (v.instances[i].db == w.instances[i].db || NoOpenBackup(w, i))
    ensures BackupsOk(v)
  {
    forall k | k in v.backups ensures BackupOk(v, k) {
      assert BackupOk(w, k);
      assert w.backups[k].passed ==> Running(w, w.backups[k].source);
    }
  }

  /** What is said of a restore only depends on it and its snapshot. */
  lemma SameRestores(w: World, v: World, r: string)
    requires RestoresOk(w)
    requires v.now >= w.now && v.restores.Keys <= w.restores.Keys + {r}
    requires forall q :: q in v.restores && q != r ==> v.restores[q] == w.restores[q]
    requires forall i :: Running(w, i) ==> Running(v, i)
    requires forall k :: k in w.backups && w.backups[k].data.Some? ==> k in v.backups && v.backups[k].data == w.backups[k].data
    ensures forall q :: q in v.restores && q != r ==> RestoreOk(v, q)
  {
    forall q | q in v.restores && q != r ensures RestoreOk(v, q) {
      assert q in w.restores && RestoreOk(w, q) && Running(w, w.restores[q].target);
    }
  }

  lemma NoRestoreChanges(w: World, v: World)
    requires RestoresOk(w) && v.restores == w.restores && v.now >= w.now
    requires forall i :: Running(w, i) ==> Running(v, i)
    requires forall k :: k in w.backups && w.backups[k].data.Some? ==> k in v.backups && v.backups[k].data == w.backups[k].data
    ensures RestoresOk(v)
  {
    forall q | q in v.restores ensures RestoreOk(v, q) {
      assert RestoreOk(w, q) && Running(w, w.restores[q].target);
    }
  }

  lemma TickKeeps(w: World, to: Time)
    requires Inv(w) && w.now <= to
    ensures Inv(w.(now := to))
  {
    var v := w.(now := to);
    assert forall b :: b in w.backups ==> BackupOk(w, b);
    SameBackups(w, v);
    NoRestoreChanges(w, v);
    SameInstances(w, v);
  }

  /** Nothing is there yet of an Instance that is not. */
  lemma NothingOf(w: World, i: string)
    requires Inv(w) && i !in w.instances
    ensures forall q :: q in w.restores ==> w.restores[q].target != i
    ensures i !in w.backups ==> i !in w.secrets
  {
    forall q | q in w.restores ensures w.restores[q].target != i { assert RestoreOk(w, q); }
  }

  lemma CreateInstanceKeeps(w: World, i: string)
    requires Inv(w) && i !in w.instances && i !in w.backups
    ensures Inv(Created(w, i))
  {
    var v := Created(w, i);
    NothingOf(w, i);
    CreatedBackups(w, i);
    NoRestoreChanges(w, v);
    forall j | j in v.instances ensures DatabaseOk(v, j) && SecretOk(v, j) {
      if j != i { SameFacts(w, v, j); }
    }
  }

  lemma CreatedBackups(w: World, i: string)
    requires BackupsOk(w) && i !in w.instances && i !in w.backups
    ensures BackupsOk(Created(w, i))
  {
    assert forall b :: b in w.backups ==> BackupOk(w, b);
    SameBackups(w, Created(w, i));
  }

  /** Passes of an Instance whose Secret is there change nothing. */
  lemma EnsureKeeps(w: World, i: string, pw: string)
    requires Inv(w) && i in w.instances && pw != ""
    ensures Inv(w.(secrets := Ensured(w.secrets, w.instances[i].uid, i, pw)))
  {
    assert SecretOk(w, i);
    if i !in w.secrets {
      NewSecretKeeps(w, i, Secret(Some(w.instances[i].uid), false, pw, None));
    }
  }

  lemma NewSecretKeeps(w: World, i: string, s: Secret)
    requires Inv(w) && i in w.instances && i !in w.secrets
    requires s.owner == Some(w.instances[i].uid) && !s.deleting && s.password != "" && s.restoredAt.None?
    ensures Inv(w.(secrets := w.secrets[i := s]))
  {
    var v := w.(secrets := w.secrets[i := s]);
    assert SecretOk(w, i) && DatabaseOk(w, i);
    assert forall b :: b in w.backups ==> BackupOk(w, b);
    SameBackups(w, v);
    NoRestoreChanges(w, v);
    forall j | j in v.instances ensures DatabaseOk(v, j) && SecretOk(v, j) {
      if j != i { SameFacts(w, v, j); }
    }
  }

  lemma BootstrapKeeps(w: World, i: string)
    requires Inv(w) && i in w.instances && w.instances[i].db.None? && Password(w, i) != ""
    ensures Inv(Bootstrapped(w, i))
  {
    var v := Bootstrapped(w, i);
    NotYetRunning(w, i);
    assert SecretOk(w, i) && DatabaseOk(w, i);
    assert forall b :: b in w.backups ==> BackupOk(w, b);
    SameBackups(w, v);
    NoRestoreChanges(w, v);
    forall j | j in v.instances ensures DatabaseOk(v, j) && SecretOk(v, j) {
      if j != i { SameFacts(w, v, j); }
    }
  }

  lemma NotYetRunning(w: World, i: string)
    requires RestoresOk(w) && !Running(w, i)
    ensures forall q :: q in w.restores ==> w.restores[q].target != i
  {
    forall q | q in w.restores ensures w.restores[q].target != i { assert RestoreOk(w, q); }
  }

  lemma CreateBackupKeeps(w: World, b: string, i: string)
    requires Inv(w) && b !in w.backups && i in w.instances && b !in w.instances
    ensures Inv(Requested(w, b, i))
  {
    var v := Requested(w, b, i);
    forall k | k in v.backups ensures BackupOk(v, k) { if k != b { assert BackupOk(w, k); } }
    NoRestoreChanges(w, v);
    SameInstances(w, v);
  }

  lemma RecordKeeps(w: World, b: string)
    requires Inv(w) && Allowed(w, RecordBackup(b)) && CanRecord(w, b)
    ensures Inv(Recorded(w, b))
  {
    var i := w.backups[b].source;
    assert BackupOk(w, b) && SecretOk(w, i) && DatabaseOk(w, i);
    if w.backups[b].passed {
      assert Recorded(w, b) == w;
    } else {
      ReconciledSecretIsRight(w, i);
      FirstRecordKeeps(w, b);
    }
  }

  lemma FirstRecordKeeps(w: World, b: string)
    requires Inv(w) && CanRecord(w, b) && BackupOk(w, b) && !w.backups[b].passed && SecretOk(w, w.backups[b].source)
    requires w.instances[w.backups[b].source].db == Some(Password(w, w.backups[b].source))
    ensures Inv(Recorded(w, b))
  {
    var v, i := Recorded(w, b), w.backups[b].source;
    assert v.secrets == w.secrets[b := Secret(Some(w.backups[b].uid), false, Password(w, i), None)];
    forall k | k in v.backups ensures BackupOk(v, k) { assert BackupOk(w, k); }
    NoRestoreChanges(w, v);
    SameInstances(w, v);
  }

  lemma SnapshotKeeps(w: World, b: string)
    requires Inv(w) && CanSnapshot(w, b)
    ensures Inv(Snapshotted(w, b))
  {
    var v := Snapshotted(w, b);
    forall k | k in v.backups ensures BackupOk(v, k) { assert BackupOk(w, k); }
    NoRestoreChanges(w, v);
    SameInstances(w, v);
  }

  lemma CreateRestoreKeeps(w: World, r: string, t: string, b: string)
    requires Inv(w) && r !in w.restores && Running(w, t) && b in w.backups && w.backups[b].data.Some?
    ensures Inv(Restoring(w, r, t, b))
  {
    var v := Restoring(w, r, t, b);
    assert forall k :: k in w.backups ==> BackupOk(w, k);
    SameBackups(w, v);
    SameRestores(w, v, r);
    assert RestoreOk(v, r);
    forall j | j in v.instances ensures DatabaseOk(v, j) && SecretOk(v, j) { SameFacts(w, v, j); }
  }

  lemma CompleteKeepsBackups(w: World, r: string)
    requires BackupsOk(w) && CanComplete(w, r) && NoOpenBackup(w, w.restores[r].target)
    ensures BackupsOk(Completed(w, r))
  {
    assert forall k :: k in w.backups ==> BackupOk(w, k);
    SameBackups(w, Completed(w, r));
  }

  lemma CompleteKeepsRestores(w: World, r: string)
    requires RestoresOk(w) && CanComplete(w, r)
    ensures RestoresOk(Completed(w, r))
  {
    assert RestoreOk(w, r);
    SameRestores(w, Completed(w, r), r);
    assert RestoreOk(Completed(w, r), r);
  }

  lemma CompleteKeepsTarget(w: World, r: string)
    requires CanComplete(w, r) && !w.restores[r].adopted && FreshSecond(w, w.restores[r].target)
    requires Running(w, w.restores[r].target) && SecretOk(w, w.restores[r].target)
    ensures DatabaseOk(Completed(w, r), w.restores[r].target)
    ensures SecretOk(Completed(w, r), w.restores[r].target)
  {
    var v, t := Completed(w, r), w.restores[r].target;
    forall q | q in v.restores && v.restores[q].target == t && v.restores[q].completed.Some? && q != r
      ensures Second(v.restores[q].completed.value) < Second(w.now)
    {
      assert CompletedInto(w, q, t);
    }
  }

  lemma CompleteKeeps(w: World, r: string)
    requires Inv(w) && Allowed(w, Complete(r)) && CanComplete(w, r)
    ensures Inv(Completed(w, r))
  {
    var v, t := Completed(w, r), w.restores[r].target;
    assert RestoreOk(w, r) && SecretOk(w, t);
    CompleteKeepsBackups(w, r);
    CompleteKeepsRestores(w, r);
    CompleteKeepsTarget(w, r);
    OthersKeep(w, v, r, t);
  }

  /** The password a pass takes the backup to carry is the one it brings. */
  lemma CarriedIsBrought(w: World, b: string)
    requires b in w.backups && BackupOk(w, b) && w.backups[b].data.Some?
    ensures Carried(w, b) == w.backups[b].data
  {
  }

  lemma SyncKeepsBackups(w: World, r: string)
    requires BackupsOk(w) && CanSync(w, r)
    ensures BackupsOk(Synced(w, r))
  {
    assert forall k :: k in w.backups ==> BackupOk(w, k);
    SameBackups(w, Synced(w, r));
  }

  lemma SyncKeepsRestores(w: World, r: string)
    requires RestoresOk(w) && CanSync(w, r)
    ensures RestoresOk(Synced(w, r))
  {
    assert RestoreOk(w, r);
    SameRestores(w, Synced(w, r), r);
    assert RestoreOk(Synced(w, r), r);
  }

  lemma SyncKeepsTarget(w: World, r: string)
    requires CanSync(w, r) && RestoreOk(w, r) && Carried(w, w.restores[r].backup) == Some(w.restores[r].brings)
    requires DatabaseOk(w, w.restores[r].target) && SecretOk(w, w.restores[r].target) && w.restores[r].brings != ""
    ensures DatabaseOk(Synced(w, r), w.restores[r].target)
    ensures SecretOk(Synced(w, r), w.restores[r].target)
  {
    var v, t := Synced(w, r), w.restores[r].target;
    forall q | q in w.restores && q != r ensures q in v.restores && v.restores[q] == w.restores[q] { }
    assert v.instances[t].db == w.instances[t].db && v.instances[t].last == w.instances[t].last;
    if Yields(Get(w.secrets, t), w.restores[r].completed.value) {
      assert v.secrets[t] == Secret(Some(w.instances[t].uid), false, w.restores[r].brings, Some(Second(w.restores[r].completed.value)));
    } else {
      assert v.secrets == w.secrets;
    }
  }

  lemma SyncKeepsOthers(w: World, r: string)
    requires InstancesOk(w) && CanSync(w, r)
    ensures var v := Synced(w, r);
      && (forall j :: j in v.instances && j != w.restores[r].target ==> DatabaseOk(v, j) && SecretOk(v, j))
      && (forall n :: n in v.secrets ==> n in w.secrets || n == w.restores[r].target)
  {
    OthersKeep(w, Synced(w, r), r, w.restores[r].target);
  }

  lemma SyncKeeps(w: World, r: string)
    requires Inv(w) && CanSync(w, r)
    ensures Inv(Synced(w, r))
  {
    assert RestoreOk(w, r) && BackupOk(w, w.restores[r].backup);
    CarriedIsBrought(w, w.restores[r].backup);
    SyncKeepsBackups(w, r);
    SyncKeepsRestores(w, r);
    SyncKeepsTarget(w, r);
    SyncKeepsOthers(w, r);
  }

  /** No Secret is ever deleted. */
  lemma NoneGoes(w: World, n: string)
    requires Inv(w) && n in w.secrets
    ensures !w.secrets[n].deleting
  {
    if n in w.instances {
      assert SecretOk(w, n);
    } else {
      assert BackupOk(w, n);
    }
  }

  lemma StepKeeps(w: World, a: Action)
    requires Inv(w) && Allowed(w, a)
    ensures Inv(Apply(w, a))
  {
    if Apply(w, a) != w {
      match a
      case Tick(to) => TickKeeps(w, to);
      case CreateInstance(i) => CreateInstanceKeeps(w, i);
      case EnsurePassword(i, pw) => EnsureKeeps(w, i, pw);
      case Bootstrap(i) => BootstrapKeeps(w, i);
      case CreateBackup(b, i) => CreateBackupKeeps(w, b, i);
      case RecordBackup(b) => RecordKeeps(w, b);
      case Snapshot(b) => SnapshotKeeps(w, b);
      case CreateRestore(r, t, b) => CreateRestoreKeeps(w, r, t, b);
      case Complete(r) => CompleteKeeps(w, r);
      case SyncRestore(r) => SyncKeeps(w, r);
      case SecretGone(n) => NoneGoes(w, n);
    }
  }

  lemma {:induction false} RunKeeps(w: World, actions: seq<Action>)
    requires Inv(w) && AllowedRun(w, actions)
    ensures Inv(Exec(w, actions))
    decreases |actions|
  {
    if actions != [] {
      StepKeeps(w, actions[0]);
      RunKeeps(Apply(w, actions[0]), actions[1..]);
    }
  }

  function Fresh(now: Time): World
  {
    World(now, 0, map[], map[], map[], map[])
  }

  /** Main result. In every run of creations, backups, restores and clones, with
      the environment keeping its side, an Instance whose completed restores have
      all been adopted has in its Secret the password root has in its database. */
  lemma SecretFollowsDatabase(now: Time, actions: seq<Action>, i: string)
    requires AllowedRun(Fresh(now), actions)
    requires Running(Exec(Fresh(now), actions), i) && Reconciled(Exec(Fresh(now), actions), i)
    ensures var w := Exec(Fresh(now), actions); w.instances[i].db == Some(Password(w, i))
  {
    RunKeeps(Fresh(now), actions);
    ReconciledSecretIsRight(Exec(Fresh(now), actions), i);
  }
}
