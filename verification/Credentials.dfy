/** The root password Secret: generated once, recorded with every backup, and
    following the restores in the order they completed. */
module Credentials {
  import opened Wrappers
  import opened Slots

  /** A Secret: its controller's UID (None without a controller), the root
      password, and the second the restore it was adopted from completed. */
  datatype Secret = Secret(owner: Option<nat>, deleting: bool, password: string, restoredAt: Option<int>)

  /** A restore as SyncRestore finds it completed: the root password its backup
      carries, None when unknown, and the completion time. */
  datatype Restored = Restored(password: Option<string>, completed: Time)

  /** RFC 3339 (section 5.6) timestamps are stored to the second. */
  function Second(t: Time): int
  {
    t / SECOND
  }

  /** A secret that a restore may still override: it was adopted from none, or
      from one that completed in an earlier second. */
  predicate Yields(current: Option<Secret>, completed: Time)
  {
    current.None? || current.value.restoredAt.None? || Second(completed) > current.value.restoredAt.value
  }

  function Adopt(current: Option<Secret>, owner: nat, r: Restored): Option<Secret>
  {
    if r.password.None? || !Yields(current, r.completed) then current
    else Some(Secret(Some(owner), false, r.password.value, Some(Second(r.completed))))
  }

  function AdoptAll(current: Option<Secret>, owner: nat, passes: seq<Restored>): Option<Secret>
    decreases |passes|
  {
    if passes == [] then current else AdoptAll(Adopt(current, owner, passes[0]), owner, passes[1..])
  }

  /** passes[i] is the first of those with a known password to reach the latest second. */
  ghost predicate Latest(passes: seq<Restored>, i: nat)
  {
    && i < |passes| && passes[i].password.Some?
    && forall j :: 0 <= j < |passes| && passes[j].password.Some? ==>
         && Second(passes[j].completed) <= Second(passes[i].completed)
         && (j < i ==> Second(passes[j].completed) < Second(passes[i].completed))
  }

  ghost predicate NoneKnown(passes: seq<Restored>)
  {
    forall j :: 0 <= j < |passes| ==> passes[j].password.None?
  }

  /** The stored restored-at time never goes back. */
  lemma {:induction false} RestoredAtNeverGoesBack(current: Option<Secret>, owner: nat, passes: seq<Restored>)
    requires current.Some? && current.value.restoredAt.Some?
    ensures var final := AdoptAll(current, owner, passes);
      && final.Some? && final.value.restoredAt.Some?
      && final.value.restoredAt.value >= current.value.restoredAt.value
      && (final.value.restoredAt.value == current.value.restoredAt.value ==> final == current)
    decreases |passes|
  {
    if passes != [] {
      RestoredAtNeverGoesBack(Adopt(current, owner, passes[0]), owner, passes[1..]);
    }
  }

  function AdoptedFrom(owner: nat, passes: seq<Restored>, i: nat): Option<Secret>
    requires i < |passes| && passes[i].password.Some?
  {
    Some(Secret(Some(owner), false, passes[i].password.value, Some(Second(passes[i].completed))))
  }

  /** The final secret against the passes over a secret that was adopted at time
      at (None: from no restore): it is unchanged, or it is the one of the pass
      that is latest among those after at. */
  lemma {:induction false} AdoptAllOutcome(current: Option<Secret>, owner: nat, passes: seq<Restored>)
    ensures var final := AdoptAll(current, owner, passes);
      || (final == current && forall j :: 0 <= j < |passes| && passes[j].password.Some? ==> !Yields(current, passes[j].completed))
      || exists i: nat :: Latest(passes, i) && Yields(current, passes[i].completed) && final == AdoptedFrom(owner, passes, i)
    decreases |passes|
  {
    if passes != [] {
      var next := Adopt(current, owner, passes[0]);
      var rest := passes[1..];
      AdoptAllOutcome(next, owner, rest);
      var final := AdoptAll(current, owner, passes);
      if i: nat :| Latest(rest, i) && Yields(next, rest[i].completed) && final == AdoptedFrom(owner, rest, i) {
        LatestOfTail(passes, current, i);
        assert passes[i + 1] == rest[i];
      } else {
        forall j | 1 <= j < |passes| && passes[j].password.Some? ensures !Yields(next, passes[j].completed) {
          assert passes[j] == rest[j - 1];
        }
        if next != current {
          assert Latest(passes, 0);
        }
      }
    }
  }

  lemma LatestOfTail(passes: seq<Restored>, current: Option<Secret>, i: nat)
    requires passes != [] && Latest(passes[1..], i)
    requires Yields(Adopt(current, 0, passes[0]), passes[1..][i].completed)
    ensures Latest(passes, i + 1) && Yields(current, passes[i + 1].completed)
  {
    forall j | 0 <= j < |passes| && passes[j].password.Some?
      ensures Second(passes[j].completed) <= Second(passes[i + 1].completed)
      ensures j < i + 1 ==> Second(passes[j].completed) < Second(passes[i + 1].completed)
    {
      if j > 0 { assert passes[j] == passes[1..][j - 1]; }
    }
  }

  /** Main result. Over any passes on completed restores, in any order and with
      repeats, a root Secret that came from no restore ends with the password of
      the latest-completing restore whose password is known, at whole seconds. */
  lemma LatestRestoreWins(current: Option<Secret>, owner: nat, passes: seq<Restored>)
    requires current.Some? ==> current.value.restoredAt.None?
    ensures NoneKnown(passes) ==> AdoptAll(current, owner, passes) == current
    ensures !NoneKnown(passes) ==>
              exists i: nat :: Latest(passes, i) && AdoptAll(current, owner, passes) == AdoptedFrom(owner, passes, i)
  {
    AdoptAllOutcome(current, owner, passes);
    if j :| 0 <= j < |passes| && passes[j].password.Some? {
      assert Yields(current, passes[j].completed);
    }
  }

  /** Restores that completed in different seconds are told apart: passes over the
      same restores in another order, or more often, leave the same Secret. */
  lemma PassOrderDoesNotMatter(current: Option<Secret>, owner: nat, a: seq<Restored>, b: seq<Restored>)
    requires current.Some? ==> current.value.restoredAt.None?
    requires forall r :: r in a <==> r in b
    requires forall r, q :: r in a && q in a && Second(r.completed) == Second(q.completed) ==> r == q
    ensures AdoptAll(current, owner, a) == AdoptAll(current, owner, b)
  {
    LatestRestoreWins(current, owner, a);
    LatestRestoreWins(current, owner, b);
    if !NoneKnown(a) {
      var k :| 0 <= k < |a| && a[k].password.Some?;
      assert a[k] in b;
      assert !NoneKnown(b);
      var i: nat :| Latest(a, i) && AdoptAll(current, owner, a) == AdoptedFrom(owner, a, i);
      var j: nat :| Latest(b, j) && AdoptAll(current, owner, b) == AdoptedFrom(owner, b, j);
      assert a[i] in b && b[j] in a;
    } else {
      forall k | 0 <= k < |b| ensures b[k].password.None? { assert b[k] in a; }
    }
  }

  // ----------------------------------------------------------------- the code

  datatype Lookup = Absent | Current(secret: Secret) | Wait

  /** A secret of a previous owner of the same name. */
  predicate Stale(s: Secret, owner: nat)
  {
    s.owner.Some? && s.owner.value != owner
  }

  /** What is appended to an Instance's name for its root Secret, and to a Backup's
      name for the record of its root password. */
  const ROOT_SUFFIX := "-tidb-root"

  function RootSecretName(instance: string): string
  {
    instance + ROOT_SUFFIX
  }

  function BackupRootSecretName(backup: string): string
  {
    backup + ROOT_SUFFIX
  }

  /** An Instance and a Backup share a Secret exactly when they have one name. */
  lemma NamesMeetExactly(instance: string, backup: string)
    ensures RootSecretName(instance) == BackupRootSecretName(backup) <==> instance == backup
  {
    if RootSecretName(instance) == BackupRootSecretName(backup) {
      assert |instance| == |backup|;
      assert instance == RootSecretName(instance)[..|instance|] && backup == BackupRootSecretName(backup)[..|backup|];
    }
  }

  function Get(secrets: map<string, Secret>, name: string): Option<Secret>
  {
    if name in secrets then Some(secrets[name]) else None
  }

  /** The root password an Instance finds in its Secret, "" when there is none. */
  function PasswordOf(secrets: map<string, Secret>, uid: nat, name: string): string
  {
    if name !in secrets || Stale(secrets[name], uid) then "" else secrets[name].password
  }

  /** A pass of an Instance: it keeps its password, generates one when there is
      none, and deletes a Secret that is another's. */
  function Ensured(secrets: map<string, Secret>, uid: nat, name: string, generated: string): map<string, Secret>
  {
    if name in secrets && Stale(secrets[name], uid) then secrets[name := secrets[name].(deleting := true)]
    else if PasswordOf(secrets, uid, name) != "" then secrets
    else secrets[name := Secret(Some(uid), false, generated, None)]
  }

  /** A pass of a Backup: its Secret is written unless one of that name is there. */
  function RecordedIn(secrets: map<string, Secret>, uid: nat, rootName: string, backupUid: nat, backupName: string): map<string, Secret>
  {
    var password := PasswordOf(secrets, uid, rootName);
    if backupName in secrets || password == "" then secrets
    else secrets[backupName := Secret(Some(backupUid), false, password, None)]
  }

  /** A pass of a completed restore, from the first source that has a password. */
  function AdoptedIn(secrets: map<string, Secret>, uid: nat, rootName: string, sources: seq<string>, completed: Time): map<string, Secret>
  {
    var after := Adopt(Get(secrets, rootName), uid, Restored(FirstPassword(secrets, sources), completed));
    if after.Some? then secrets[rootName := after.value] else secrets
  }

  class CredentialStore {
    /** The Secrets of the namespace, by name. */
    var secrets: map<string, Secret>

    /** Reads a Secret the provider owns by ownerUid; one left by a previous
        owner is deleted, never reused. */
    method CurrentSecret(ownerUid: nat, name: string) returns (r: Lookup)
      modifies this
      ensures r.Absent? <==> name !in old(secrets)
      ensures r.Current? ==> name in old(secrets) && r.secret == old(secrets)[name]
      ensures r.Wait? <==> name in old(secrets) && old(secrets)[name].owner.Some? && old(secrets)[name].owner.value != ownerUid
      ensures secrets == if r.Wait? then old(secrets)[name := old(secrets)[name].(deleting := true)] else old(secrets)
    {
      if name !in secrets {
        return Absent;
      }
      var s := secrets[name];
      if s.owner.None? || s.owner.value == ownerUid {
        return Current(s);
      }
      if !s.deleting {
        secrets := secrets[name := s.(deleting := true)];
      }
      return Wait;
    }

    /** The Instance's root password, generated only when there is none; None
        while a previous Instance's Secret is going away. */
    method EnsureRootPassword(uid: nat, name: string, generated: string) returns (password: Option<string>)
      requires generated != ""
      modifies this
      ensures secrets == Ensured(old(secrets), uid, name, generated)
      ensures password.Some? ==> password.value != "" && name in secrets && secrets[name].password == password.value
                                 && !Stale(secrets[name], uid)
      ensures name in old(secrets) && !Stale(old(secrets)[name], uid) && old(secrets)[name].password != "" ==>
                secrets == old(secrets) && password == Some(old(secrets)[name].password)
      ensures password.None? <==> name in old(secrets) && old(secrets)[name].owner.Some? && old(secrets)[name].owner.value != uid
      ensures name !in old(secrets) || (old(secrets)[name].password == "" && password.Some?) ==>
                password == Some(generated) && secrets[name] == Secret(Some(uid), false, generated, None)
      ensures forall n :: n != name ==> (n in secrets <==> n in old(secrets)) && (n in secrets ==> secrets[n] == old(secrets)[n])
    {
      var r := CurrentSecret(uid, name);
      if r.Wait? {
        return None;
      }
      if r.Current? && r.secret.password != "" {
        return Some(r.secret.password);
      }
      secrets := secrets[name := Secret(Some(uid), false, generated, None)];
      return Some(generated);
    }

    /** The stored root password, "" exactly when there is none of this Instance. */
    method ReadRootPassword(uid: nat, name: string) returns (password: string)
      ensures password == PasswordOf(secrets, uid, name)
      ensures password == if name in secrets && (secrets[name].owner.None? || secrets[name].owner.value == uid)
                          then secrets[name].password else ""
    {
      if name !in secrets {
        return "";
      }
      if secrets[name].owner.Some? && secrets[name].owner.value != uid {
        return "";
      }
      return secrets[name].password;
    }

    /** Stores the Instance's root password next to a backup, once. */
    method RecordBackupRootPassword(uid: nat, rootName: string, backupUid: nat, backupName: string)
      modifies this
      ensures secrets == RecordedIn(old(secrets), uid, rootName, backupUid, backupName)
      ensures secrets ==
              if backupName !in old(secrets) && rootName in old(secrets) && old(secrets)[rootName].password != ""
                 && (old(secrets)[rootName].owner.None? || old(secrets)[rootName].owner.value == uid)
              then old(secrets)[backupName := Secret(Some(backupUid), false, old(secrets)[rootName].password, None)]
              else old(secrets)
    {
      if backupName in secrets {
        return;
      }
      var password := ReadRootPassword(uid, rootName);
      if password == "" {
        return;
      }
      secrets := secrets[backupName := Secret(Some(backupUid), false, password, None)];
    }

    /** The root password a backup's data carries: the first of the named Secrets
        that holds one. */
    method RestoredRootPassword(names: seq<string>) returns (password: Option<string>)
      ensures password == FirstPassword(secrets, names)
      ensures password.None? <==> forall j :: 0 <= j < |names| ==> !HasPassword(secrets, names[j])
      ensures password.Some? ==>
                exists i :: 0 <= i < |names| && IsFirst(secrets, names, i) && password.value == secrets[names[i]].password
    {
      for i := 0 to |names|
        invariant FirstPassword(secrets, names) == FirstPassword(secrets, names[i..])
        invariant forall j :: 0 <= j < i ==> !HasPassword(secrets, names[j])
      {
        if names[i] in secrets && secrets[names[i]].password != "" {
          assert IsFirst(secrets, names, i);
          return Some(secrets[names[i]].password);
        }
      }
      return None;
    }

    /** Makes the root Secret follow the restored mysql.user; false when the
        backup's root password is unknown. */
    method AdoptRestoredRootPassword(uid: nat, rootName: string, sources: seq<string>, completed: Time) returns (known: bool)
      modifies this
      ensures known <==> FirstPassword(old(secrets), sources).Some?
      ensures secrets == AdoptedIn(old(secrets), uid, rootName, sources, completed)
      ensures secrets ==
              if known && (rootName in old(secrets) && old(secrets)[rootName].restoredAt.Some? ==>
                             completed / 1_000_000_000 > old(secrets)[rootName].restoredAt.value)
              then old(secrets)[rootName := Secret(Some(uid), false, FirstPassword(old(secrets), sources).value,
                                                   Some(completed / 1_000_000_000))]
              else old(secrets)
    {
      var password := RestoredRootPassword(sources);
      if password.None? {
        assert rootName in secrets ==> secrets == secrets[rootName := secrets[rootName]];
        return false;
      }
      if rootName in secrets && secrets[rootName].restoredAt.Some?
         && !(Second(completed) > secrets[rootName].restoredAt.value)
      {
        assert secrets == secrets[rootName := secrets[rootName]];
        return true;
      }
      secrets := secrets[rootName := Secret(Some(uid), false, password.value, Some(Second(completed)))];
      return true;
    }
  }

  predicate HasPassword(secrets: map<string, Secret>, name: string)
  {
    name in secrets && secrets[name].password != ""
  }

  /** The ith name is the first whose Secret has a password. */
  ghost predicate IsFirst(secrets: map<string, Secret>, names: seq<string>, i: nat)
    requires i < |names|
  {
    HasPassword(secrets, names[i]) && forall j :: 0 <= j < i ==> !HasPassword(secrets, names[j])
  }

  function FirstPassword(secrets: map<string, Secret>, names: seq<string>): Option<string>
  {
    if names == [] then None
    else if names[0] in secrets && secrets[names[0]].password != "" then Some(secrets[names[0]].password)
    else FirstPassword(secrets, names[1..])
  }
}
