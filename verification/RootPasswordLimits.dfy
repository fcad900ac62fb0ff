/** Why RootPasswordRun asks what it asks of the environment: for each condition
    what exactly goes wrong without it, and a run that gets there. */
module RootPasswordLimits {
  import opened Wrappers
  import opened Slots
  import opened Credentials
  import opened RootPasswordRun

  // ------------------------------------------------------------------ lists of steps

  lemma {:induction false} ExecAppend(w: World, a: seq<Action>, b: seq<Action>)
    ensures Exec(w, a + b) == Exec(Exec(w, a), b)
    decreases |a|
  {
    if a == [] {
      assert a + b == b;
    } else {
      assert (a + b)[1..] == a[1..] + b;
      ExecAppend(Apply(w, a[0]), a[1..], b);
    }
  }

  lemma ExecOne(w: World, a: Action)
    ensures Exec(w, [a]) == Apply(w, a)
  {
    assert [a][1..] == [];
  }

  lemma ExecTwo(w: World, a: Action, b: Action)
    ensures Exec(w, [a, b]) == Apply(Apply(w, a), b)
  {
    assert [a, b] == [a] + [b];
    ExecAppend(w, [a], [b]);
    ExecOne(w, a);
    ExecOne(Apply(w, a), b);
  }

  lemma ExecThree(w: World, a: Action, b: Action, c: Action)
    ensures Exec(w, [a, b, c]) == Apply(Apply(Apply(w, a), b), c)
  {
    assert [a, b, c] == [a, b] + [c];
    ExecAppend(w, [a, b], [c]);
    ExecTwo(w, a, b);
    ExecOne(Apply(Apply(w, a), b), c);
  }

  /** A Backup b of Instance i is created, recorded and taken. */
  function BackUp(i: string, b: string): seq<Action>
  {
    [CreateBackup(b, i), RecordBackup(b), Snapshot(b)]
  }

  /** Restore r brings Backup b into t, and is adopted. */
  function RestoreInto(t: string, b: string, r: string): seq<Action>
  {
    [CreateRestore(r, t, b), Complete(r), SyncRestore(r)]
  }

  lemma BackUpSteps(w: World, i: string, b: string)
    requires Running(w, i) && b !in w.backups
    ensures var v := Exec(w, BackUp(i, b));
      v == w.(uids := w.uids + 1, secrets := RecordedIn(w.secrets, w.instances[i].uid, i, w.uids, b),
              backups := w.backups[b := Backup(w.uids, i, true, w.instances[i].db)])
  {
    var w1 := Requested(w, b, i);
    ExecThree(w, CreateBackup(b, i), RecordBackup(b), Snapshot(b));
    assert Apply(w, CreateBackup(b, i)) == w1;
    RecordThenSnapshot(w1, b);
  }

  lemma RecordThenSnapshot(w: World, b: string)
    requires CanRecord(w, b) && !w.backups[b].passed && w.backups[b].data.None?
    ensures var k := w.backups[b];
      Apply(Apply(w, RecordBackup(b)), Snapshot(b)) ==
      w.(secrets := RecordedIn(w.secrets, w.instances[k.source].uid, k.source, k.uid, b),
         backups := w.backups[b := k.(passed := true, data := w.instances[k.source].db)])
  {
    var v := Recorded(w, b);
    assert Apply(w, RecordBackup(b)) == v && Apply(v, Snapshot(b)) == Snapshotted(v, b);
  }

  /** What a restore that completes and its pass leave: the database has what the
      restore brings, and the Secret what the pass takes the backup to carry, unless
      a later second was adopted. */
  lemma CompleteAndSync(w: World, r: string)
    requires CanComplete(w, r) && w.restores[r].backup in w.backups && Carried(w, w.restores[r].backup).Some?
    requires Password(w, w.restores[r].target) != "" || Yields(Get(w.secrets, w.restores[r].target), w.now)
    ensures var v, t := Exec(w, [Complete(r), SyncRestore(r)]), w.restores[r].target;
      && Running(v, t) && r in v.restores && v.restores[r].adopted && v.restores.Keys == w.restores.Keys
      && v.instances[t].db == Some(w.restores[r].brings)
      && Password(v, t) == if Yields(Get(w.secrets, t), w.now) then Carried(w, w.restores[r].backup).value else Password(w, t)
  {
    var w1 := Completed(w, r);
    ExecTwo(w, Complete(r), SyncRestore(r));
    assert Apply(w, Complete(r)) == w1 && CanSync(w1, r) && Apply(w1, SyncRestore(r)) == Synced(w1, r);
    assert Carried(w1, w.restores[r].backup) == Carried(w, w.restores[r].backup);
  }

  lemma RestoreSteps(w: World, t: string, b: string, r: string)
    requires Running(w, t) && b in w.backups && w.backups[b].data.Some? && r !in w.restores
    requires Carried(w, b).Some? && Yields(Get(w.secrets, t), w.now)
    ensures var v := Exec(w, RestoreInto(t, b, r));
      && Running(v, t) && r in v.restores && v.restores[r].adopted && v.restores.Keys == w.restores.Keys + {r}
      && v.instances[t].db == w.backups[b].data && Password(v, t) == Carried(w, b).value
  {
    var w1 := Restoring(w, r, t, b);
    assert RestoreInto(t, b, r) == [CreateRestore(r, t, b)] + [Complete(r), SyncRestore(r)];
    ExecAppend(w, [CreateRestore(r, t, b)], [Complete(r), SyncRestore(r)]);
    ExecOne(w, CreateRestore(r, t, b));
    assert Apply(w, CreateRestore(r, t, b)) == w1 && Carried(w1, b) == Carried(w, b);
    CompleteAndSync(w1, r);
  }

  /** An Instance's restored-at second is that of some restore into it. */
  lemma AdoptedIsEarlier(w: World, t: string)
    requires t in w.instances && SecretOk(w, t) && FreshSecond(w, t)
    ensures Yields(Get(w.secrets, t), w.now)
  {
  }

  // ------------------------------------------------------------- a Secret that lags

  /** A record is right exactly when the Secret was adopted from the restore that
      completed last, or that one brought the same password. */
  lemma RecordIsRightExactly(w: World, b: string)
    requires Inv(w) && CanRecord(w, b) && !w.backups[b].passed
    ensures var i := w.backups[b].source; var n := w.instances[i];
      BackupOk(Recorded(w, b), b) <==>
        n.last == n.from || (n.last.Some? && n.last.value in w.restores && w.restores[n.last.value].brings == Password(w, i))
  {
    var i := w.backups[b].source;
    assert BackupOk(w, b) && SecretOk(w, i) && DatabaseOk(w, i);
    var v := Recorded(w, b);
    assert v.secrets == w.secrets[b := Secret(Some(w.backups[b].uid), false, Password(w, i), None)];
  }

  /** Back up an Instance whose Secret lags behind its database, and restore the
      backup into another one: once adopted, that Instance's Secret holds a
      password its root does not have. */
  lemma OverlappingBackupBreaksTheClone(w: World, i: string, t: string, b: string, r: string)
    requires Inv(w) && Running(w, i) && Running(w, t) && i != t
    requires w.instances[i].db != Some(Password(w, i))
    requires b !in w.backups && b !in w.instances && r !in w.restores && FreshSecond(w, t)
    ensures var v := Exec(w, BackUp(i, b) + RestoreInto(t, b, r));
      && Running(v, t) && r in v.restores && v.restores[r].adopted
      && v.instances[t].db == w.instances[i].db
      && v.instances[t].db != Some(Password(v, t))
  {
    assert SecretOk(w, i) && SecretOk(w, t);
    ExecAppend(w, BackUp(i, b), RestoreInto(t, b, r));
    BackUpSteps(w, i, b);
    AdoptedIsEarlier(w, t);
    RestoreSteps(Exec(w, BackUp(i, b)), t, b, r);
  }

  // ------------------------------------------------ a restore during a backup

  /** A record stays what it is as long as no Instance of its name is created. */
  lemma RecordStaysOnce(w: World, b: string, i: string, a: Action)
    requires b in w.backups && w.backups[b].passed && b in w.secrets && !w.secrets[b].deleting && b !in w.instances && Running(w, i)
    requires a != Snapshot(b) && a != CreateInstance(b) && RestoresOk(w)
    ensures var u := Apply(w, a);
      b in u.backups && u.backups[b] == w.backups[b] && Get(u.secrets, b) == Get(w.secrets, b) && b !in u.instances && Running(u, i)
  {
    if a.SyncRestore? && CanSync(w, a.restore) {
      assert RestoreOk(w, a.restore);
    }
  }

  lemma NewRestoreIsOk(w: World, r: string, t: string, b: string)
    requires RestoresOk(w) && r !in w.restores && Running(w, t) && b in w.backups && w.backups[b].data.Some?
    ensures RestoresOk(Restoring(w, r, t, b))
  {
    var v := Restoring(w, r, t, b);
    SameRestores(w, v, r);
    assert RestoreOk(v, r);
  }

  /** Steps that are not a restore's. */
  lemma OtherStep(w: World, a: Action)
    requires !a.CreateRestore? && !a.Complete? && !a.SyncRestore?
    ensures var v := Apply(w, a);
      && v.restores == w.restores && v.now >= w.now
      && (forall i :: Running(w, i) ==> Running(v, i))
      && (forall k :: k in w.backups && w.backups[k].data.Some? ==> k in v.backups && v.backups[k].data == w.backups[k].data)
  {
  }

  lemma RestoresStay(w: World, a: Action)
    requires RestoresOk(w)
    ensures RestoresOk(Apply(w, a))
  {
    if a.CreateRestore? {
      if Apply(w, a) != w { NewRestoreIsOk(w, a.restore, a.target, a.backup); }
    } else if a.Complete? {
      if CanComplete(w, a.restore) { CompleteKeepsRestores(w, a.restore); }
    } else if a.SyncRestore? {
      if CanSync(w, a.restore) { SyncKeepsRestores(w, a.restore); }
    } else {
      OtherStep(w, a);
      NoRestoreChanges(w, Apply(w, a));
    }
  }

  lemma {:induction false} RecordStays(w: World, b: string, i: string, actions: seq<Action>)
    requires b in w.backups && w.backups[b].passed && b in w.secrets && !w.secrets[b].deleting && b !in w.instances && Running(w, i)
    requires Snapshot(b) !in actions && CreateInstance(b) !in actions && RestoresOk(w)
    ensures var u := Exec(w, actions);
      b in u.backups && u.backups[b] == w.backups[b] && Get(u.secrets, b) == Get(w.secrets, b) && Running(u, i)
    decreases |actions|
  {
    if actions != [] {
      assert actions[0] in actions;
      RecordStaysOnce(w, b, i, actions[0]);
      RestoresStay(w, actions[0]);
      RecordStays(Apply(w, actions[0]), b, i, actions[1..]);
    }
  }

  /** A backup recorded for an Instance whose restores are adopted: exactly when the
      database's password is another at the snapshot than at the record do record
      and snapshot hold different ones, whatever happened in between. */
  lemma SnapshotIsRightExactly(w: World, b: string, between: seq<Action>)
    requires Inv(w) && CanRecord(w, b) && !w.backups[b].passed && Reconciled(w, w.backups[b].source)
    requires Snapshot(b) !in between && CreateInstance(b) !in between
    ensures var i := w.backups[b].source;
      var u := Exec(Recorded(w, b), between);
      var v := Apply(u, Snapshot(b));
      && Running(u, i) && b in v.backups && v.backups[b].data == u.instances[i].db
      && b in v.secrets && Some(v.secrets[b].password) == w.instances[i].db
      && (v.backups[b].data == Some(v.secrets[b].password) <==> u.instances[i].db == w.instances[i].db)
  {
    var i := w.backups[b].source;
    assert BackupOk(w, b) && SecretOk(w, i) && DatabaseOk(w, i);
    ReconciledSecretIsRight(w, i);
    var v := Recorded(w, b);
    assert v.secrets == w.secrets[b := Secret(Some(w.backups[b].uid), false, Password(w, i), None)];
    NoRestoreChanges(w, v);
    RecordStays(v, b, i, between);
  }

  /** A backup b of i that restore r overtakes, restored into t. */
  function OvertakenSteps(i: string, t: string, b: string, r: string, q: string): seq<Action>
  {
    [CreateBackup(b, i), RecordBackup(b)] + [Complete(r), Snapshot(b)] + RestoreInto(t, b, q)
  }

  /** A restore that completes between a backup's record and its snapshot spoils
      the backup: restored into another Instance, it leaves a wrong Secret there. */
  lemma OpenBackupBreaksTheClone(w: World, i: string, t: string, b: string, r: string, q: string)
    requires Inv(w) && Running(w, i) && Running(w, t) && i != t && Reconciled(w, i) && FreshSecond(w, t)
    requires b !in w.backups && b !in w.instances && q !in w.restores
    requires r in w.restores && w.restores[r].completed.None? && w.restores[r].target == i
    requires Some(w.restores[r].brings) != w.instances[i].db
    ensures var x := Exec(w, OvertakenSteps(i, t, b, r, q));
      && Running(x, t) && q in x.restores && x.restores[q].adopted
      && x.instances[t].db == Some(w.restores[r].brings) && x.instances[t].db != Some(Password(x, t))
  {
    assert SecretOk(w, i) && SecretOk(w, t) && DatabaseOk(w, i);
    ReconciledSecretIsRight(w, i);
    AdoptedIsEarlier(w, t);
    var v := Overtaken(w, i, b, r);
    assert Get(v.secrets, t) == Get(w.secrets, t) && Running(v, t);
    var first := [CreateBackup(b, i), RecordBackup(b)] + [Complete(r), Snapshot(b)];
    ExecAppend(w, first, RestoreInto(t, b, q));
    RestoreSteps(v, t, b, q);
  }

  /** A new backup up to its record. */
  lemma RecordSteps(w: World, i: string, b: string)
    requires Running(w, i) && b !in w.backups && b !in w.secrets && Password(w, i) != ""
    ensures Exec(w, [CreateBackup(b, i), RecordBackup(b)]) ==
            w.(uids := w.uids + 1, secrets := w.secrets[b := Secret(Some(w.uids), false, Password(w, i), None)],
               backups := w.backups[b := Backup(w.uids, i, true, None)])
  {
    var w1 := Requested(w, b, i);
    ExecTwo(w, CreateBackup(b, i), RecordBackup(b));
    assert Apply(w, CreateBackup(b, i)) == w1 && Apply(w1, RecordBackup(b)) == Recorded(w1, b);
  }

  lemma CompleteThenSnapshot(w: World, b: string, r: string)
    requires CanComplete(w, r) && CanSnapshot(w, b) && w.restores[r].target == w.backups[b].source
    ensures Exec(w, [Complete(r), Snapshot(b)]) ==
            Completed(w, r).(backups := w.backups[b := w.backups[b].(data := Some(w.restores[r].brings))])
  {
    var w1 := Completed(w, r);
    ExecTwo(w, Complete(r), Snapshot(b));
    assert Apply(w, Complete(r)) == w1 && Apply(w1, Snapshot(b)) == Snapshotted(w1, b);
  }

  /** The backup's record is of before the restore, its data of after. */
  lemma Overtaken(w: World, i: string, b: string, r: string) returns (v: World)
    requires Running(w, i) && b !in w.backups && b !in w.secrets && Password(w, i) != ""
    requires r in w.restores && w.restores[r].completed.None? && w.restores[r].target == i
    ensures v == Exec(w, [CreateBackup(b, i), RecordBackup(b)] + [Complete(r), Snapshot(b)])
    ensures b in v.backups && v.backups[b].data == Some(w.restores[r].brings)
    ensures Carried(v, b) == Some(Password(w, i))
    ensures v.now == w.now && v.restores.Keys == w.restores.Keys && v.instances.Keys == w.instances.Keys
    ensures forall j :: j in w.instances && j != i ==> v.instances[j] == w.instances[j]
    ensures forall j :: j != b ==> Get(v.secrets, j) == Get(w.secrets, j)
  {
    ExecAppend(w, [CreateBackup(b, i), RecordBackup(b)], [Complete(r), Snapshot(b)]);
    RecordSteps(w, i, b);
    var w2 := Exec(w, [CreateBackup(b, i), RecordBackup(b)]);
    CompleteThenSnapshot(w2, b, r);
    v := Exec(w2, [Complete(r), Snapshot(b)]);
  }

  // ------------------------------------------------------------- shared seconds

  /** A restore that completed is followed by its pass exactly when it completed
      in a later second than the one adopted last, or brings the same password. */
  lemma PassFollowsExactly(w: World, q: string, t: string)
    requires Inv(w) && CanComplete(w, q) && w.restores[q].target == t
    ensures var v := Exec(w, [Complete(q), SyncRestore(q)]);
      && Running(v, t) && q in v.restores && v.restores[q].adopted && v.instances[t].db == Some(w.restores[q].brings)
      && Password(v, t) == (if Yields(Get(w.secrets, t), w.now) then w.restores[q].brings else Password(w, t))
      && (v.instances[t].db == Some(Password(v, t)) <==>
          Yields(Get(w.secrets, t), w.now) || w.restores[q].brings == Password(w, t))
  {
    assert RestoreOk(w, q) && BackupOk(w, w.restores[q].backup) && SecretOk(w, t);
    CarriedIsBrought(w, w.restores[q].backup);
    CompleteAndSync(w, q);
  }

  /** Restores have to complete in distinct seconds: one that completes in the
      second of the restore adopted last is not followed. */
  lemma SameSecondIsLost(w: World, q: string, t: string)
    requires Inv(w) && CanComplete(w, q) && w.restores[q].target == t && t in w.secrets
    requires w.secrets[t].restoredAt == Some(Second(w.now)) && w.restores[q].brings != Password(w, t)
    ensures var v := Exec(w, [Complete(q), SyncRestore(q)]);
      && Running(v, t) && q in v.restores && v.restores[q].adopted
      && v.instances[t].db == Some(w.restores[q].brings) && v.instances[t].db != Some(Password(v, t))
  {
    PassFollowsExactly(w, q, t);
  }

  // --------------------------------------------------------------- shared names

  /** A Backup that bears the name of an Instance has that Instance's Secret for its
      record: a restore of it is given the right password exactly when the two
      Instances have the same one. */
  lemma SharedNameIsRightExactly(w: World, i: string, t: string, r: string)
    requires Inv(w) && Running(w, i) && Running(w, t) && i != t && Reconciled(w, i) && FreshSecond(w, t)
    requires t !in w.backups && r !in w.restores
    ensures var v := Exec(w, BackUp(i, t) + RestoreInto(t, t, r));
      && Running(v, t) && r in v.restores && v.restores[r].adopted
      && v.instances[t].db == Some(Password(w, i)) && Password(v, t) == Password(w, t)
      && (v.instances[t].db == Some(Password(v, t)) <==> Password(w, t) == Password(w, i))
  {
    assert SecretOk(w, i) && SecretOk(w, t) && DatabaseOk(w, i);
    ReconciledSecretIsRight(w, i);
    AdoptedIsEarlier(w, t);
    ExecAppend(w, BackUp(i, t), RestoreInto(t, t, r));
    BackUpSteps(w, i, t);
    RestoreSteps(Exec(w, BackUp(i, t)), t, t, r);
  }

  /** An Instance that bears the name of a Backup takes its record away, as a Secret
      of another owner: until it has a password of its own, a restore of the backup
      is given the source's present one. */
  lemma InstanceTakesTheRecord(w: World, b: string, generated: string)
    requires Inv(w) && b in w.backups && w.backups[b].data.Some? && generated != ""
    ensures var v := Exec(w, [CreateInstance(b), EnsurePassword(b, generated), SecretGone(b)]);
      && b in v.backups && v.backups[b] == w.backups[b] && b in v.instances && b !in v.secrets
      && Carried(v, b) == Some(Password(w, w.backups[b].source))
      && (Carried(v, b) == w.backups[b].data <==> Password(w, w.backups[b].source) == w.backups[b].data.value)
  {
    var i := w.backups[b].source;
    assert BackupOk(w, b) && SecretOk(w, i);
    TakingSteps(w, b, generated);
    assert [b, i][1..] == [i] && Carried(Taken(w, b), b) == FirstPassword(Taken(w, b).secrets, [i]);
  }

  function Taken(w: World, b: string): World
  {
    Created(w, b).(secrets := w.secrets - {b})
  }

  lemma TakingSteps(w: World, b: string, generated: string)
    requires b !in w.instances && b in w.secrets && w.secrets[b].owner.Some? && w.secrets[b].owner != Some(w.uids) && generated != ""
    ensures Exec(w, [CreateInstance(b), EnsurePassword(b, generated), SecretGone(b)]) == Taken(w, b)
  {
    ExecThree(w, CreateInstance(b), EnsurePassword(b, generated), SecretGone(b));
    var w1 := Created(w, b);
    var w2 := w1.(secrets := w.secrets[b := w.secrets[b].(deleting := true)]);
    assert Apply(w, CreateInstance(b)) == w1 && Apply(w1, EnsurePassword(b, generated)) == w2;
    assert w2.secrets - {b} == w.secrets - {b};
  }

  /** An Instance that comes up without a Secret of its name there. */
  lemma ComesUp(w: World, b: string, generated: string)
    requires b in w.instances && w.instances[b].db.None? && b !in w.secrets && generated != ""
    ensures var v := Exec(w, [EnsurePassword(b, generated), Bootstrap(b)]);
      && v.secrets == w.secrets[b := Secret(Some(w.instances[b].uid), false, generated, None)] && Running(v, b)
      && v.backups == w.backups && v.restores == w.restores && v.now == w.now
  {
    var w1 := w.(secrets := w.secrets[b := Secret(Some(w.instances[b].uid), false, generated, None)]);
    ExecTwo(w, EnsurePassword(b, generated), Bootstrap(b));
    assert Apply(w, EnsurePassword(b, generated)) == w1;
  }

  /** An Instance seeded from the Backup of its own name keeps the password it
      generated: right exactly when that is the one in the backup. */
  lemma NamesakeCloneIsRightExactly(w: World, b: string, first: string, generated: string, r: string)
    requires Inv(w) && b in w.backups && w.backups[b].data.Some? && first != "" && generated != "" && r !in w.restores
    ensures var v := Exec(w, [CreateInstance(b), EnsurePassword(b, first), SecretGone(b)]
                             + [EnsurePassword(b, generated), Bootstrap(b)] + RestoreInto(b, b, r));
      && Running(v, b) && r in v.restores && v.restores[r].adopted
      && v.instances[b].db == w.backups[b].data && Password(v, b) == generated
      && (v.instances[b].db == Some(Password(v, b)) <==> w.backups[b].data == Some(generated))
  {
    assert BackupOk(w, b);
    var take, up := [CreateInstance(b), EnsurePassword(b, first), SecretGone(b)], [EnsurePassword(b, generated), Bootstrap(b)];
    TakingSteps(w, b, first);
    ExecAppend(w, take, up);
    ExecAppend(w, take + up, RestoreInto(b, b, r));
    ComesUp(Taken(w, b), b, generated);
    RestoreSteps(Exec(w, take + up), b, b, r);
  }

  // ---------------------------------------------------------- runs that get there

  lemma {:induction false} AllowedSnoc(w: World, actions: seq<Action>, a: Action)
    requires AllowedRun(w, actions) && Allowed(Exec(w, actions), a)
    ensures AllowedRun(w, actions + [a]) && Exec(w, actions + [a]) == Apply(Exec(w, actions), a)
    decreases |actions|
  {
    ExecAppend(w, actions, [a]);
    ExecOne(Exec(w, actions), a);
    if actions == [] {
      assert actions + [a] == [a] && [a][1..] == [];
      assert AllowedRun(Apply(w, a), [a][1..]);
    } else {
      assert (actions + [a])[1..] == actions[1..] + [a];
      AllowedSnoc(Apply(w, actions[0]), actions[1..], a);
    }
  }

  lemma FreshHolds(now: Time, actions: seq<Action>)
    requires AllowedRun(Fresh(now), actions)
    ensures Inv(Exec(Fresh(now), actions))
  {
    RunKeeps(Fresh(now), actions);
  }

  function NewInstance(uid: nat, password: string): Instance
  {
    Instance(uid, None, password, Some(password), None)
  }

  function RootSecret(uid: nat, password: string): Secret
  {
    Secret(Some(uid), false, password, None)
  }

  function Booted(now: Time): World
  {
    World(now, 2, map["a" := RootSecret(0, "x"), "b" := RootSecret(1, "y")],
          map["a" := NewInstance(0, "x"), "b" := NewInstance(1, "y")], map[], map[])
  }

  /** Two Instances are created, with different passwords. */
  lemma Boot(now: Time) returns (actions: seq<Action>)
    ensures AllowedRun(Fresh(now), actions) && Exec(Fresh(now), actions) == Booted(now)
  {
    var f := Fresh(now);
    actions := [];
    AllowedSnoc(f, actions, CreateInstance("a"));
    actions := actions + [CreateInstance("a")];
    AllowedSnoc(f, actions, EnsurePassword("a", "x"));
    actions := actions + [EnsurePassword("a", "x")];
    AllowedSnoc(f, actions, Bootstrap("a"));
    actions := actions + [Bootstrap("a")];
    assert Exec(f, actions) == World(now, 1, map["a" := RootSecret(0, "x")], map["a" := NewInstance(0, "x")], map[], map[]);
    AllowedSnoc(f, actions, CreateInstance("b"));
    actions := actions + [CreateInstance("b")];
    AllowedSnoc(f, actions, EnsurePassword("b", "y"));
    actions := actions + [EnsurePassword("b", "y")];
    AllowedSnoc(f, actions, Bootstrap("b"));
    actions := actions + [Bootstrap("b")];
  }

  /** A Backup of each. */
  function TwoBackups(now: Time): World
  {
    Booted(now).(uids := 4,
                 secrets := map["a" := RootSecret(0, "x"), "b" := RootSecret(1, "y"), "ka" := RootSecret(2, "x"), "kb" := RootSecret(3, "y")],
                 backups := map["ka" := Backup(2, "a", true, Some("x")), "kb" := Backup(3, "b", true, Some("y"))])
  }

  /** Going on with an allowed backup. */
  lemma AllowedBackUp(f: World, actions: seq<Action>, i: string, b: string)
    requires AllowedRun(f, actions)
    requires var w := Exec(f, actions); Running(w, i) && b !in w.backups && b !in w.instances && Reconciled(w, i)
    ensures AllowedRun(f, actions + BackUp(i, b)) && Exec(f, actions + BackUp(i, b)) == Exec(Exec(f, actions), BackUp(i, b))
  {
    var w := Exec(f, actions);
    ExecAppend(f, actions, BackUp(i, b));
    var s1 := actions + [CreateBackup(b, i)];
    AllowedSnoc(f, actions, CreateBackup(b, i));
    var s2 := s1 + [RecordBackup(b)];
    AllowedSnoc(f, s1, RecordBackup(b));
    AllowedSnoc(f, s2, Snapshot(b));
    assert s2 + [Snapshot(b)] == actions + BackUp(i, b);
  }

  lemma BothBackedUp(now: Time) returns (actions: seq<Action>)
    ensures AllowedRun(Fresh(now), actions) && Exec(Fresh(now), actions) == TwoBackups(now)
  {
    var f := Fresh(now);
    actions := Boot(now);
    AllowedBackUp(f, actions, "a", "ka");
    BackUpSteps(Booted(now), "a", "ka");
    actions := actions + BackUp("a", "ka");
    var w := Exec(f, actions);
    AllowedBackUp(f, actions, "b", "kb");
    BackUpSteps(w, "b", "kb");
    actions := actions + BackUp("b", "kb");
  }

  /** A Secret that lags: a restore has completed and no pass was made yet. */
  lemma SomeSecretLags(now: Time) returns (actions: seq<Action>)
    ensures AllowedRun(Fresh(now), actions)
    ensures var w := Exec(Fresh(now), actions);
      Inv(w) && Running(w, "a") && Running(w, "b") && w.instances["b"].db != Some(Password(w, "b"))
  {
    var f := Fresh(now);
    actions := BothBackedUp(now);
    AllowedSnoc(f, actions, CreateRestore("r", "b", "ka"));
    actions := actions + [CreateRestore("r", "b", "ka")];
    assert Exec(f, actions) == TwoBackups(now).(restores := map["r" := Restore("b", "ka", "x", None, false)]);
    AllowedSnoc(f, actions, Complete("r"));
    actions := actions + [Complete("r")];
    FreshHolds(now, actions);
  }

  /** The state of OpenBackupBreaksTheClone. */
  lemma SomeBackupIsOvertaken(now: Time) returns (actions: seq<Action>)
    ensures AllowedRun(Fresh(now), actions)
    ensures var w := Exec(Fresh(now), actions);
      && Inv(w) && Running(w, "a") && Running(w, "b") && Reconciled(w, "a") && FreshSecond(w, "b")
      && "k" !in w.backups && "k" !in w.instances && "q" !in w.restores
      && "r" in w.restores && w.restores["r"].completed.None? && w.restores["r"].target == "a"
      && Some(w.restores["r"].brings) != w.instances["a"].db
  {
    var f := Fresh(now);
    actions := BothBackedUp(now);
    AllowedSnoc(f, actions, CreateRestore("r", "a", "kb"));
    actions := actions + [CreateRestore("r", "a", "kb")];
    assert Exec(f, actions) == TwoBackups(now).(restores := map["r" := Restore("a", "kb", "y", None, false)]);
    FreshHolds(now, actions);
  }

  /** The state of SameSecondIsLost. */
  lemma SomeSecondIsShared(now: Time) returns (actions: seq<Action>)
    ensures AllowedRun(Fresh(now), actions)
    ensures var w := Exec(Fresh(now), actions);
      && Inv(w) && CanComplete(w, "s") && w.restores["s"].target == "b" && "b" in w.secrets
      && w.secrets["b"].restoredAt == Some(Second(w.now)) && w.restores["s"].brings != Password(w, "b")
  {
    var f := Fresh(now);
    actions := BothBackedUp(now);
    AllowedSnoc(f, actions, CreateRestore("r", "b", "ka"));
    actions := actions + [CreateRestore("r", "b", "ka")];
    AllowedSnoc(f, actions, CreateRestore("s", "b", "kb"));
    actions := actions + [CreateRestore("s", "b", "kb")];
    var v := Exec(f, actions);
    assert v == TwoBackups(now).(restores := map["r" := Restore("b", "ka", "x", None, false), "s" := Restore("b", "kb", "y", None, false)]);
    AllowedSnoc(f, actions, Complete("r"));
    actions := actions + [Complete("r")];
    AllowedSnoc(f, actions, SyncRestore("r"));
    actions := actions + [SyncRestore("r")];
    AdoptsIntoB(v);
    FreshHolds(now, actions);
  }

  lemma AdoptsIntoB(v: World)
    requires v == TwoBackups(v.now).(restores := map["r" := Restore("b", "ka", "x", None, false), "s" := Restore("b", "kb", "y", None, false)])
    ensures var u := Apply(Apply(v, Complete("r")), SyncRestore("r"));
      && CanComplete(u, "s") && u.restores["s"] == v.restores["s"] && u.now == v.now
      && "b" in u.secrets && u.secrets["b"] == Secret(Some(1), false, "x", Some(Second(v.now))) && u.instances["b"].uid == 1
  {
    var u := Completed(v, "r");
    assert Apply(v, Complete("r")) == u && Apply(u, SyncRestore("r")) == Synced(u, "r");
    assert u.secrets == v.secrets && Carried(u, "ka") == Some("x");
  }

  /** A run that is as it should be but for a Backup of "a" named "b": restored into
      "b" and adopted, it leaves "b" with a password its root does not have. */
  lemma SomeNameIsShared(now: Time) returns (actions: seq<Action>)
    ensures var w := Exec(Fresh(now), actions);
      && Running(w, "b") && "r" in w.restores && Reconciled(w, "b") && w.instances["b"].db != Some(Password(w, "b"))
  {
    var f, w := Fresh(now), Booted(now);
    var boot := Boot(now);
    FreshHolds(now, boot);
    SharedNameIsRightExactly(w, "a", "b", "r");
    ExecAppend(f, boot, BackUp("a", "b") + RestoreInto("b", "b", "r"));
    actions := boot + (BackUp("a", "b") + RestoreInto("b", "b", "r"));
    ExecAppend(w, BackUp("a", "b"), RestoreInto("b", "b", "r"));
    BackUpSteps(w, "a", "b");
    RestoreSteps(Exec(w, BackUp("a", "b")), "b", "b", "r");
  }
}
