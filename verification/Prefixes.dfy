/** Where in a bucket a backup's data is, and that whoever shares a bucket, every
    restore reads the data its own backup wrote. */
module Prefixes {
  import opened Wrappers

  /** A Kubernetes name. */
  predicate Name(s: string)
  {
    '/' !in s && '_' !in s
  }

  function BackupPrefix(ns: string, instance: string, backup: string): string
  {
    ns + "/" + instance + "/" + backup
  }

  function LogPrefix(ns: string, instance: string): string
  {
    ns + "/" + instance + "/_log"
  }

  /** What comes before the first slash is told by the whole. */
  lemma Cut(a: string, b: string, x: string, y: string)
    requires '/' !in a && '/' !in b && a + "/" + x == b + "/" + y
    ensures a == b && x == y
  {
    var s := a + "/" + x;
    assert s[|a|] == '/' && (b + "/" + y)[|b|] == '/';
    assert forall k :: 0 <= k < |b| ==> s[k] == b[k] && s[k] != '/';
    assert forall k :: 0 <= k < |a| ==> s[k] == a[k] && s[k] != '/';
    assert a == s[..|a|] && b == s[..|b|] && x == s[|a| + 1..] && y == s[|b| + 1..];
  }

  /** No object under one backup's prefix is under another's: not only do the
      prefixes differ, none lies inside another. */
  lemma ObjectTellsBackup(ns: string, i: string, b: string, rest: string, ns': string, i': string, b': string, rest': string)
    requires Name(ns) && Name(i) && Name(b) && Name(ns') && Name(i') && Name(b')
    requires BackupPrefix(ns, i, b) + "/" + rest == BackupPrefix(ns', i', b') + "/" + rest'
    ensures ns == ns' && i == i' && b == b' && rest == rest'
  {
    var x, x' := b + "/" + rest, b' + "/" + rest';
    assert BackupPrefix(ns, i, b) + "/" + rest == ns + "/" + (i + "/" + x);
    assert BackupPrefix(ns', i', b') + "/" + rest' == ns' + "/" + (i' + "/" + x');
    Cut(ns, ns', i + "/" + x, i' + "/" + x');
    Cut(i, i', x, x');
    Cut(b, b', rest, rest');
  }

  /** No object of a log stream is under a backup's prefix, nor under another
      Instance's stream. */
  lemma ObjectTellsLog(ns: string, i: string, rest: string, ns': string, i': string, b': string, rest': string)
    requires Name(ns) && Name(i) && Name(ns') && Name(i')
    ensures Name(b') ==> LogPrefix(ns, i) + "/" + rest != BackupPrefix(ns', i', b') + "/" + rest'
    ensures LogPrefix(ns, i) + "/" + rest == LogPrefix(ns', i') + "/" + rest' ==> ns == ns' && i == i' && rest == rest'
  {
    var x := "_log/" + rest;
    assert "_log"[0] == '_';
    assert LogPrefix(ns, i) + "/" + rest == ns + "/" + (i + "/" + x);
    if LogPrefix(ns, i) + "/" + rest == LogPrefix(ns', i') + "/" + rest' {
      var y := "_log/" + rest';
      assert LogPrefix(ns', i') + "/" + rest' == ns' + "/" + (i' + "/" + y);
      Cut(ns, ns', i + "/" + x, i' + "/" + y);
      Cut(i, i', x, y);
      assert rest == x[5..] && rest' == y[5..];
    }
    if Name(b') && LogPrefix(ns, i) + "/" + rest == BackupPrefix(ns', i', b') + "/" + rest' {
      var y := b' + "/" + rest';
      assert BackupPrefix(ns', i', b') + "/" + rest' == ns' + "/" + (i' + "/" + y);
      Cut(ns, ns', i + "/" + x, i' + "/" + y);
      Cut(i, i', x, y);
      assert x == "_log" + "/" + rest;
      Cut("_log", b', rest, rest');
    }
  }

  // ------------------------------------------------------------------ the runs

  /** A Backup's identity; Backups are named per namespace. */
  datatype Id = Id(ns: string, name: string)

  /** A Backup: its Instance and storage, and as history the snapshot BR took. */
  datatype Backup = Backup(instance: string, storage: string, snapshot: Option<nat>)

  /** A Restore to start: the Instance it restores into, and the backup it reads,
      which is the base it was recorded with when it is a point-in-time restore. */
  datatype Source = FromBackup(id: Id) | PointInTime(ns: string, instance: string, base: string)

  /** The Backups, what is in the buckets by storage and prefix, and as history the
      snapshots taken so far, every snapshot read with the one that was asked for,
      and every log read with the Instance whose log was asked for. */
  datatype World = World(
    backups: map<Id, Backup>,
    objects: map<(string, string), nat>,
    taken: nat,
    logs: map<(string, string), (string, string)>,
    read: seq<(Option<nat>, Option<nat>)>,
    readLogs: seq<((string, string), Option<(string, string)>)>)

  datatype Action =
    | Create(id: Id, instance: string, storage: string)
    | Snapshot(id: Id)
    | Stream(ns: string, instance: string, storage: string)
    | StopStream(ns: string, instance: string, storage: string)
    | Delete(id: Id, data: bool)
    | Read(source: Source)

  function Get<K, V>(m: map<K, V>, k: K): Option<V>
  {
    if k in m then Some(m[k]) else None
  }

  /** Where BR writes a Backup's data. */
  function Where(id: Id, b: Backup): (string, string)
  {
    (b.storage, BackupPrefix(id.ns, b.instance, id.name))
  }

  function ReadAt(w: World, storage: string, prefix: string, wanted: Option<nat>): World
  {
    w.(read := w.read + [(wanted, Get(w.objects, (storage, prefix)))])
  }

  function Apply(w: World, a: Action): World
  {
    match a
    case Create(id, i, s) =>
      if id !in w.backups && Name(id.ns) && Name(id.name) && Name(i) then w.(backups := w.backups[id := Backup(i, s, None)]) else w
    case Snapshot(id) =>
      if id in w.backups && w.backups[id].snapshot.None? then
        w.(backups := w.backups[id := w.backups[id].(snapshot := Some(w.taken))],
           objects := w.objects[Where(id, w.backups[id]) := w.taken],
           taken := w.taken + 1)
      else w
    case Stream(ns, i, s) =>
      if Name(ns) && Name(i) then w.(logs := w.logs[(s, LogPrefix(ns, i)) := (ns, i)]) else w
    case StopStream(ns, i, s) =>
      if Name(ns) && Name(i) then w.(logs := w.logs - {(s, LogPrefix(ns, i))}, objects := w.objects - {(s, LogPrefix(ns, i))}) else w
    case Delete(id, data) =>
      if id in w.backups
      then w.(backups := w.backups - {id}, objects := if data then w.objects - {Where(id, w.backups[id])} else w.objects)
      else w
    case Read(FromBackup(id)) =>
      if id in w.backups && w.backups[id].snapshot.Some?
      then ReadAt(w, w.backups[id].storage, BackupPrefix(id.ns, w.backups[id].instance, id.name), w.backups[id].snapshot)
      else w
    case Read(PointInTime(ns, i, base)) =>
      var id := Id(ns, base);
      if id in w.backups && w.backups[id].snapshot.Some? && w.backups[id].instance == i then
        var s := w.backups[id].storage;
        ReadAt(w, s, BackupPrefix(ns, i, base), w.backups[id].snapshot)
        .(readLogs := w.readLogs + [((ns, i), Get(w.logs, (s, LogPrefix(ns, i))))])
      else w
  }

  function Exec(w: World, actions: seq<Action>): World
    decreases |actions|
  {
    if actions == [] then w else Exec(Apply(w, actions[0]), actions[1..])
  }

  /** Every Backup's data is where it was written, and nothing else was read. */
  ghost predicate Inv(w: World)
  {
    && (forall id :: id in w.backups ==> Name(id.ns) && Name(id.name) && Name(w.backups[id].instance))
    && (forall id :: id in w.backups && w.backups[id].snapshot.Some? ==> Get(w.objects, Where(id, w.backups[id])) == w.backups[id].snapshot)
    && (forall s, p :: (s, p) in w.logs ==> Name(w.logs[(s, p)].0) && Name(w.logs[(s, p)].1) && p == LogPrefix(w.logs[(s, p)].0, w.logs[(s, p)].1))
    && (forall k :: 0 <= k < |w.read| ==> w.read[k].0 == w.read[k].1)
    && (forall k :: 0 <= k < |w.readLogs| ==> w.readLogs[k].1.Some? ==> w.readLogs[k].1 == Some(w.readLogs[k].0))
  }

  lemma PrefixesDiffer(id: Id, b: Backup, id': Id, b': Backup)
    requires Name(id.ns) && Name(id.name) && Name(b.instance) && Name(id'.ns) && Name(id'.name) && Name(b'.instance)
    requires Where(id, b) == Where(id', b')
    ensures id == id'
  {
    ObjectTellsBackup(id.ns, b.instance, id.name, "", id'.ns, b'.instance, id'.name, "");
  }

  lemma LogIsNoBackup(ns: string, i: string, id: Id, b: Backup)
    requires Name(id.ns) && Name(id.name) && Name(b.instance) && Name(ns) && Name(i)
    ensures LogPrefix(ns, i) != BackupPrefix(id.ns, b.instance, id.name)
  {
    ObjectTellsLog(ns, i, "", id.ns, b.instance, id.name, "");
  }

  lemma ObjectsKept(w: World, v: World, a: Action)
    requires Inv(w) && v == Apply(w, a)
    ensures forall id :: id in v.backups && v.backups[id].snapshot.Some? ==> Get(v.objects, Where(id, v.backups[id])) == v.backups[id].snapshot
  {
    forall id | id in v.backups && v.backups[id].snapshot.Some?
      ensures Get(v.objects, Where(id, v.backups[id])) == v.backups[id].snapshot
    {
      if (a.Snapshot? || a.Delete?) && a.id != id && a.id in w.backups {
        if Where(id, w.backups[id]) == Where(a.id, w.backups[a.id]) {
          PrefixesDiffer(id, w.backups[id], a.id, w.backups[a.id]);
        }
      }
      if a.StopStream? && Name(a.ns) && Name(a.instance) {
        LogIsNoBackup(a.ns, a.instance, id, w.backups[id]);
      }
    }
  }

  lemma LogsRead(w: World, v: World, ns: string, i: string, s: string)
    requires Inv(w) && Name(ns) && Name(i) && (s, LogPrefix(ns, i)) in w.logs
    ensures w.logs[(s, LogPrefix(ns, i))] == (ns, i)
  {
    var l := w.logs[(s, LogPrefix(ns, i))];
    ObjectTellsLog(ns, i, "", l.0, l.1, "", "");
  }

  lemma StepKeeps(w: World, a: Action)
    requires Inv(w)
    ensures Inv(Apply(w, a))
  {
    var v := Apply(w, a);
    ObjectsKept(w, v, a);
    if a.Read? && a.source.PointInTime? && v != w {
      var s := w.backups[Id(a.source.ns, a.source.base)].storage;
      if (s, LogPrefix(a.source.ns, a.source.instance)) in w.logs {
        LogsRead(w, v, a.source.ns, a.source.instance, s);
      }
    }
  }

  lemma {:induction false} RunKeeps(w: World, actions: seq<Action>)
    requires Inv(w)
    ensures Inv(Exec(w, actions))
    decreases |actions|
  {
    if actions != [] {
      StepKeeps(w, actions[0]);
      RunKeeps(Apply(w, actions[0]), actions[1..]);
    }
  }

  /** Main result. In every run of backups and log streams of any Instances that
      share buckets, of deletions and of restores, each restore reads the snapshot
      its backup, or the base of its point in time, was taken as, and a log it
      reads is its source Instance's own. */
  lemma EveryRestoreReadsItsBackup(actions: seq<Action>, k: nat)
    ensures var w := Exec(World(map[], map[], 0, map[], [], []), actions);
      && (k < |w.read| ==> w.read[k].0 == w.read[k].1)
      && (k < |w.readLogs| && w.readLogs[k].1.Some? ==> w.readLogs[k].1 == Some(w.readLogs[k].0))
  {
    RunKeeps(World(map[], map[], 0, map[], [], []), actions);
  }
}
