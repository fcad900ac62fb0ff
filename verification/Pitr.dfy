/** Point-in-time recovery: reading the log stream, choosing the full backup to
    start from, the published window and the decision to start a restore. */
module Pitr {
  import opened Wrappers
  import Semver
  import Versions

  // ------------------------------------------------------------------- the TSO

  /** A TSO's upper bits are Unix milliseconds; the lower 18 are a counter. */
  const TICK: int := 0x4_0000

  /** The wall-clock time of a TSO, in Unix milliseconds. */
  function TsTime(ts: nat): nat
  {
    ts / TICK
  }

  /** The first TSO of a millisecond. */
  function TimeToTs(ms: nat): nat
  {
    ms * TICK
  }

  /** Going through a time loses the counter: a time's TSO is at most ts exactly
      when the time is at most ts's, and reaches ts only past its millisecond or
      when ts has no counter. */
  lemma TsTimeRounding(ts: nat, ms: nat)
    ensures TimeToTs(ms) <= ts <==> ms <= TsTime(ts)
    ensures ts <= TimeToTs(ms) <==> TsTime(ts) < ms || (TsTime(ts) == ms && ts % TICK == 0)
  {
    assert ts == TsTime(ts) * TICK + ts % TICK;
    if ms <= TsTime(ts) {
      assert ms * TICK <= TsTime(ts) * TICK;
    } else {
      assert (TsTime(ts) + 1) * TICK <= ms * TICK;
    }
  }

  // ---------------------------------------------------------- stored objects

  /** A TSO field of a BR Backup's status: parsed (0 when empty) or malformed. */
  datatype Field = Ts(value: nat) | Malformed

  datatype Phase = Complete | Failed | Invalid | Unfinished

  /** A BR Backup, a snapshot or a log backup. */
  datatype BrBackup = BrBackup(log: bool, phase: Phase, commitTs: Field, checkpointTs: Field, truncatedUntil: Field,
                               storage: string, deleting: bool)

  /** A Backup: the Instance it was taken of, if any, and where it is stored. */
  datatype BackupCr = BackupCr(name: string, instance: Option<string>, storage: string)

  /** What a restore decision reads; tikv holds each Instance's TiKV version. */
  datatype Store = Store(backups: seq<BackupCr>, br: map<string, BrBackup>, clusters: set<string>,
                         tikv: map<string, Semver.Text>)

  function LogBackupName(instance: string): string
  {
    instance + "-pitr"
  }

  /** The Instance's log backup, a BR Backup named after it. */
  ghost function Log(store: Store, instance: string): BrBackup
    requires instance + "-pitr" in store.br
  {
    store.br[instance + "-pitr"]
  }

  /** It is to stay on the storage. */
  ghost predicate Placed(store: Store, instance: string, storage: string)
  {
    instance + "-pitr" in store.br && !Log(store, instance).deleting && Log(store, instance).storage == storage
  }

  /** And has not failed. */
  ghost predicate Healthy(store: Store, instance: string, storage: string)
  {
    Placed(store, instance, storage) && !Log(store, instance).phase.Failed? && !Log(store, instance).phase.Invalid?
  }

  ghost predicate Readable(b: BrBackup)
  {
    b.commitTs.Ts? && b.checkpointTs.Ts? && b.truncatedUntil.Ts?
  }

  /** A stream runs: its start and its checkpoint are known. */
  ghost predicate Streams(store: Store, instance: string, storage: string)
  {
    && Healthy(store, instance, storage) && Readable(Log(store, instance))
    && Log(store, instance).commitTs.value != 0 && Log(store, instance).checkpointTs.value != 0
  }

  datatype Stream = Stream(start: nat, truncatedUntil: nat, checkpoint: nat)

  datatype Reason = Starting | Moving | StreamFailed | NoBaseBackup | NotReached
  datatype Opened = Running(stream: Stream) | Unavailable(reason: Reason) | Unreadable

  /** Why there is no stream to read. */
  ghost predicate NoStream(store: Store, instance: string, storage: string, reason: Reason)
  {
    match reason
    case Starting =>
      || instance + "-pitr" !in store.br
      || (Healthy(store, instance, storage) && Readable(Log(store, instance)) && !Streams(store, instance, storage))
    case Moving => instance + "-pitr" in store.br && !Placed(store, instance, storage)
    case StreamFailed => Placed(store, instance, storage) && !Healthy(store, instance, storage)
    case _ => false
  }

  /** Reads the log backup the Instance writes to the storage. */
  method OpenLogStream(store: Store, instance: string, storage: string) returns (outcome: Opened)
    ensures outcome.Running? <==> Streams(store, instance, storage)
    ensures outcome.Running? ==>
              && outcome.stream.start == Log(store, instance).commitTs.value
              && outcome.stream.truncatedUntil == Log(store, instance).truncatedUntil.value
              && outcome.stream.checkpoint == Log(store, instance).checkpointTs.value
    ensures forall reason :: outcome == Unavailable(reason) <==> NoStream(store, instance, storage, reason)
    ensures outcome.Unreadable? <==> Healthy(store, instance, storage) && !Readable(Log(store, instance))
  {
    if LogBackupName(instance) !in store.br {
      return Unavailable(Starting);
    }
    var b := store.br[LogBackupName(instance)];
    if b.deleting || b.storage != storage {
      return Unavailable(Moving);
    }
    if b.phase.Failed? || b.phase.Invalid? {
      return Unavailable(StreamFailed);
    }
    if b.commitTs.Malformed? || b.checkpointTs.Malformed? || b.truncatedUntil.Malformed? {
      return Unreadable;
    }
    if b.commitTs.value == 0 || b.checkpointTs.value == 0 {
      return Unavailable(Starting);
    }
    return Running(Stream(b.commitTs.value, b.truncatedUntil.value, b.checkpointTs.value));
  }

  // -------------------------------------------------------------- base backups

  datatype Base = Base(name: string, ts: nat)

  /** A complete snapshot of the Instance on the storage. */
  ghost predicate IsSnapshot(store: Store, instance: string, storage: string, b: Base)
  {
    && BackupCr(b.name, Some(instance), storage) in store.backups
    && Taken(store, b)
  }

  ghost predicate Taken(store: Store, b: Base)
  {
    && b.name in store.br && !store.br[b.name].log && store.br[b.name].phase.Complete?
    && store.br[b.name].commitTs == Ts(b.ts)
  }

  /** One that the stream covers onward: from its start, and from what is left of it. */
  ghost predicate IsBase(store: Store, instance: string, storage: string, b: Base)
    requires Streams(store, instance, storage)
  {
    && IsSnapshot(store, instance, storage, b)
    && Log(store, instance).commitTs.value <= b.ts && Log(store, instance).truncatedUntil.value <= b.ts
  }

  predicate Ascending(bases: seq<Base>)
  {
    forall i, j :: 0 <= i < j < |bases| ==> bases[i].ts <= bases[j].ts
  }

  function InsertBase(b: Base, sorted: seq<Base>): seq<Base>
  {
    if sorted == [] || b.ts <= sorted[0].ts then [b] + sorted else [sorted[0]] + InsertBase(b, sorted[1..])
  }

  function SortBases(bases: seq<Base>): seq<Base>
  {
    if bases == [] then [] else InsertBase(bases[0], SortBases(bases[1..]))
  }

  lemma {:induction false} InsertBaseSorted(b: Base, sorted: seq<Base>)
    requires Ascending(sorted)
    ensures Ascending(InsertBase(b, sorted))
    ensures forall x :: x in InsertBase(b, sorted) <==> x == b || x in sorted
  {
    if sorted != [] && b.ts > sorted[0].ts {
      InsertBaseSorted(b, sorted[1..]);
      var rest := InsertBase(b, sorted[1..]);
      assert forall x :: x in sorted <==> x == sorted[0] || x in sorted[1..];
      forall j | 0 <= j < |rest| ensures sorted[0].ts <= rest[j].ts {
        assert rest[j] in rest;
      }
    }
  }

  lemma {:induction false} SortBasesSorted(bases: seq<Base>)
    ensures Ascending(SortBases(bases))
    ensures forall x :: x in SortBases(bases) <==> x in bases
  {
    if bases != [] {
      SortBasesSorted(bases[1..]);
      InsertBaseSorted(bases[0], SortBases(bases[1..]));
      assert forall x :: x in bases <==> x == bases[0] || x in bases[1..];
    }
  }

  /** The full backups of an Instance on a storage that the stream covers onward,
      oldest first. */
  method PitrBases(store: Store, instance: string, storage: string, stream: Stream) returns (bases: seq<Base>)
    ensures Ascending(bases)
    ensures forall x :: x in bases <==>
              IsSnapshot(store, instance, storage, x) && stream.start <= x.ts && stream.truncatedUntil <= x.ts
  {
    bases := [];
    var floor := if stream.start < stream.truncatedUntil then stream.truncatedUntil else stream.start;
    for i := 0 to |store.backups|
      invariant forall x :: x in bases <==>
                  BackupCr(x.name, Some(instance), storage) in store.backups[..i] && Taken(store, x) && floor <= x.ts
    {
      var b := store.backups[i];
      assert store.backups[..i + 1] == store.backups[..i] + [b];
      if b.instance != Some(instance) || b.storage != storage || b.name !in store.br {
        continue;
      }
      var snapshot := store.br[b.name];
      if snapshot.log || !snapshot.phase.Complete? || snapshot.commitTs.Malformed? || snapshot.commitTs.value < floor {
        continue;
      }
      bases := bases + [Base(b.name, snapshot.commitTs.value)];
    }
    assert store.backups[..|store.backups|] == store.backups;
    SortBasesSorted(bases);
    bases := SortBases(bases);
  }

  /** The search for the base to restore: the last one at or before the target. */
  method NewestBaseAtOrBefore(bases: seq<Base>, target: nat) returns (base: Option<Base>)
    requires Ascending(bases)
    ensures base.None? <==> forall x :: x in bases ==> x.ts > target
    ensures base.Some? ==>
              && base.value in bases && base.value.ts <= target
              && forall x :: x in bases && x.ts <= target ==> x.ts <= base.value.ts
  {
    base := None;
    for i := 0 to |bases|
      invariant base.None? ==> forall k :: 0 <= k < i ==> bases[k].ts > target
      invariant base.Some? ==> base.value in bases[..i] && base.value.ts <= target
      invariant base.Some? ==> forall k :: 0 <= k < i && bases[k].ts <= target ==> bases[k].ts <= base.value.ts
    {
      assert bases[..i + 1] == bases[..i] + [bases[i]];
      if bases[i].ts <= target {
        base := Some(bases[i]);
      }
    }
    assert bases[..|bases|] == bases;
  }

  // ---------------------------------------------------------------- the window

  /** The log backup's checkpoint may trail by this much before it is reported. */
  const MAX_LAG_MS: int := 15 * 60 * 1000

  datatype Window =
    | Available(earliest: nat, latest: nat, lagging: bool)
    | NoWindow(reason: Reason)
    | WindowUnreadable

  /** t is restorable from the stream: some base is at or before it and the log
      has reached it. */
  ghost predicate Restorable(store: Store, instance: string, storage: string, t: nat)
    requires Streams(store, instance, storage)
  {
    && t <= Log(store, instance).checkpointTs.value
    && exists b :: IsBase(store, instance, storage, b) && b.ts <= t
  }

  ghost predicate Oldest(store: Store, instance: string, storage: string, b: Base)
    requires Streams(store, instance, storage)
  {
    IsBase(store, instance, storage, b) && forall x :: IsBase(store, instance, storage, x) ==> b.ts <= x.ts
  }

  /** Why no window is published. */
  ghost predicate Unpublished(store: Store, instance: string, storage: string, reason: Reason)
  {
    || NoStream(store, instance, storage, reason)
    || (Streams(store, instance, storage) &&
        match reason
        case NoBaseBackup => forall b :: !IsBase(store, instance, storage, b)
        case NotReached =>
          && (exists b :: IsBase(store, instance, storage, b))
          && forall b :: IsBase(store, instance, storage, b) ==> Log(store, instance).checkpointTs.value < b.ts
        case _ => false)
  }

  /** The window is published exactly when some point is restorable, and spans from
      the oldest base to the checkpoint, in milliseconds; otherwise why it is not. */
  ghost predicate WindowIsRight(store: Store, instance: string, storage: string, w: Window)
  {
    && (w.Available? <==> Streams(store, instance, storage) && exists t :: Restorable(store, instance, storage, t))
    && (w.Available? ==>
          && w.latest == Log(store, instance).checkpointTs.value / 0x4_0000
          && exists b :: Oldest(store, instance, storage, b) && w.earliest == b.ts / 0x4_0000)
    && (forall reason :: w == NoWindow(reason) <==> Unpublished(store, instance, storage, reason))
    && (w.WindowUnreadable? <==> Healthy(store, instance, storage) && !Readable(Log(store, instance)))
  }

  method PitrWindow(store: Store, instance: string, storage: string, nowMs: int) returns (w: Window)
    ensures WindowIsRight(store, instance, storage, w)
    ensures w.Available? ==> (w.lagging <==> nowMs - w.latest > 900_000)
  {
    var open := OpenLogStream(store, instance, storage);
    if open.Unreadable? {
      return WindowUnreadable;
    }
    if open.Unavailable? {
      return NoWindow(open.reason);
    }
    var stream := open.stream;
    var bases := PitrBases(store, instance, storage, stream);
    assert forall x :: x in bases <==> IsBase(store, instance, storage, x);
    if |bases| == 0 {
      return NoWindow(NoBaseBackup);
    }
    assert bases[0] in bases;
    FirstIsOldest(bases);
    if stream.checkpoint < bases[0].ts {
      return NoWindow(NotReached);
    }
    var latest := TsTime(stream.checkpoint);
    assert Oldest(store, instance, storage, bases[0]) && Restorable(store, instance, storage, stream.checkpoint);
    return Available(TsTime(bases[0].ts), latest, nowMs - latest > MAX_LAG_MS);
  }

  lemma FirstIsOldest(bases: seq<Base>)
    requires |bases| > 0 && Ascending(bases)
    ensures forall x :: x in bases ==> bases[0].ts <= x.ts
  {
  }

  // ------------------------------------------------- restores and a log backup

  datatype Block = Free | WaitForStop | TurnOff

  /** The first BR that restores into a cluster while a log backup runs on it. */
  const RESTORE_WITH_LOG_VERSION: Semver.Version := Semver.Version(8, 5, 5, [])

  /** The TiKV group says it runs a version whose BR restores next to a log
      backup. The version is taken as written: without the "v" it is not valid. */
  ghost predicate RestoresNextToLog(store: Store, instance: string)
  {
    && instance in store.tikv && store.tikv[instance].prefixed && store.tikv[instance].version.Some?
    && !Semver.Precedes(store.tikv[instance].version.value, Semver.Version(8, 5, 5, []))
  }

  /** No log backup keeps BR from restoring into the Instance. */
  ghost predicate Unblocked(store: Store, instance: string)
  {
    instance + "-pitr" in store.br ==> !Log(store, instance).deleting && RestoresNextToLog(store, instance)
  }

  ghost predicate Stopping(store: Store, instance: string)
  {
    instance + "-pitr" in store.br && Log(store, instance).deleting
  }

  method RestoreBlockedByLogBackup(store: Store, instance: string) returns (block: Block)
    ensures block.Free? <==> Unblocked(store, instance)
    ensures block.WaitForStop? <==> Stopping(store, instance)
  {
    if LogBackupName(instance) !in store.br {
      return Free;
    }
    if store.br[LogBackupName(instance)].deleting {
      return WaitForStop;
    }
    if instance in store.tikv {
      var v := store.tikv[instance];
      if v.prefixed && v.version.Some? {
        Semver.CompareIsPrecedence(v.version.value, RESTORE_WITH_LOG_VERSION);
        if Semver.Compare(v.version.value, RESTORE_WITH_LOG_VERSION) >= 0 {
          return Free;
        }
      }
    }
    return TurnOff;
  }

  datatype Target = Latest | Date(ms: nat)

  datatype Decision = Start(base: Base, ts: nat) | Pending | Refused | Error

  /** Picks the point and the full backup to start from, or says why it cannot;
      s3 is whether the storage is S3-backed, None when it is not found. */
  method StartPointInTimeRestore(store: Store, self: string, source: string, storage: string, target: Target, s3: Option<bool>)
    returns (d: Decision)
    ensures d.Pending? <==> Waits(store, self, source, storage, target)
    ensures d.Start? <==> Starts(store, self, source, storage, target, s3)
    ensures d.Start? ==> RightStart(store, source, storage, target, d.base, d.ts)
    ensures d.Refused? <==> Refuses(store, self, source, storage, target, s3)
    ensures d.Error? <==> Fails(store, self, source, storage, target, s3)
  {
    if source == self {
      return Refused;
    }
    if self !in store.clusters {
      return Pending;
    }
    var block := RestoreBlockedByLogBackup(store, self);
    match block
    case WaitForStop => return Pending;
    case TurnOff => return Refused;
    case Free =>
      var open := OpenLogStream(store, source, storage);
      if open.Unreadable? {
        return Error;
      }
      if open.Unavailable? {
        return Pending;
      }
      var stream := open.stream;
      var t := if target.Date? then TimeToTs(target.ms) else stream.checkpoint;
      assert t == TargetTs(store, source, target);
      if target.Date? && t > stream.checkpoint {
        return Pending;
      }
      var bases := PitrBases(store, source, storage, stream);
      assert forall x :: x in bases <==> IsBase(store, source, storage, x);
      var base := NewestBaseAtOrBefore(bases, t);
      if base.None? {
        return if target.Date? then Refused else Pending;
      }
      assert IsBase(store, source, storage, base.value) && Restorable(store, source, storage, t);
      if s3.None? {
        return Error;
      }
      if !s3.value {
        return Refused;
      }
      return Start(base.value, t);
  }

  /** The point asked for: the first TSO of a date's millisecond, or the checkpoint. */
  ghost function TargetTs(store: Store, source: string, target: Target): nat
    requires source + "-pitr" in store.br && Log(store, source).checkpointTs.Ts?
  {
    if target.Date? then target.ms * 0x4_0000 else Log(store, source).checkpointTs.value
  }

  /** Everything but the point: what PITR needs of the two Instances, a cluster of
      its own that no log backup blocks, and a stream to restore from. */
  ghost predicate Able(store: Store, self: string, source: string, storage: string)
  {
    source != self && self in store.clusters && Unblocked(store, self) && Streams(store, source, storage)
  }

  /** Everything a restore needs: also S3 and a restorable point. */
  ghost predicate Starts(store: Store, self: string, source: string, storage: string, target: Target, s3: Option<bool>)
  {
    && Able(store, self, source, storage) && s3 == Some(true)
    && Restorable(store, source, storage, TargetTs(store, source, target))
  }

  /** What time can still bring: the cluster, the end of a stopping log backup, a
      stream, a checkpoint that reaches the date, or for the latest point a first
      base. */
  ghost predicate Waits(store: Store, self: string, source: string, storage: string, target: Target)
  {
    && source != self
    && (|| self !in store.clusters
        || Stopping(store, self)
        || (Unblocked(store, self) && exists reason :: NoStream(store, source, storage, reason))
        || (Able(store, self, source, storage) &&
            if target.Date? then target.ms * 0x4_0000 > Log(store, source).checkpointTs.value
            else !Restorable(store, source, storage, Log(store, source).checkpointTs.value)))
  }

  /** What time does not bring: a cluster of its own, a BR that restores next to
      the log backup, a date in the window, or S3. */
  ghost predicate Refuses(store: Store, self: string, source: string, storage: string, target: Target, s3: Option<bool>)
  {
    || source == self
    || (self in store.clusters && !Unblocked(store, self) && !Stopping(store, self))
    || (Able(store, self, source, storage) &&
        var t := TargetTs(store, source, target);
        if Restorable(store, source, storage, t) then s3 == Some(false)
        else target.Date? && t <= Log(store, source).checkpointTs.value)
  }

  /** What has to be tried again: a stream that cannot be read, or a storage that
      is not found for a point that could be restored. */
  ghost predicate Fails(store: Store, self: string, source: string, storage: string, target: Target, s3: Option<bool>)
  {
    && source != self && self in store.clusters && Unblocked(store, self)
    && (|| (Healthy(store, source, storage) && !Readable(Log(store, source)))
        || (Streams(store, source, storage) && s3.None?
            && Restorable(store, source, storage, TargetTs(store, source, target))))
  }

  /** The point is the one asked for and the base the newest one at or before it. */
  ghost predicate RightStart(store: Store, source: string, storage: string, target: Target, base: Base, ts: nat)
  {
    && Streams(store, source, storage)
    && ts == TargetTs(store, source, target) && ts <= Log(store, source).checkpointTs.value
    && IsBase(store, source, storage, base) && base.ts <= ts
    && forall x :: IsBase(store, source, storage, x) && x.ts <= ts ==> x.ts <= base.ts
  }

  // -------------------------------------------------- window and decision agree

  /** A restore to the latest point starts exactly when a window is published; a
      restore to a date starts exactly when the date lies strictly after the
      published earliest time, or at it with a base that has no counter, and not
      after the published latest time. */
  lemma WindowAndDecisionAgree(store: Store, self: string, source: string, storage: string, ms: nat, w: Window)
    requires Able(store, self, source, storage) && WindowIsRight(store, source, storage, w)
    ensures Starts(store, self, source, storage, Latest, Some(true)) <==> w.Available?
    ensures !w.Available? ==> !Starts(store, self, source, storage, Date(ms), Some(true))
    ensures w.Available? ==>
      (Starts(store, self, source, storage, Date(ms), Some(true)) <==>
        && ms <= w.latest
        && (w.earliest < ms || (w.earliest == ms && EarliestIsExact(store, source, storage))))
  {
    var checkpoint := Log(store, source).checkpointTs.value;
    if w.Available? {
      var t :| Restorable(store, source, storage, t);
      var b :| IsBase(store, source, storage, b) && b.ts <= t;
      assert Restorable(store, source, storage, checkpoint);
      var o :| Oldest(store, source, storage, o) && w.earliest == o.ts / 0x4_0000;
      TsTimeRounding(checkpoint, ms);
      TsTimeRounding(o.ts, ms);
      assert Restorable(store, source, storage, TimeToTs(ms)) <==> TimeToTs(ms) <= checkpoint && o.ts <= TimeToTs(ms);
    } else {
      assert !Restorable(store, source, storage, checkpoint);
      assert !Restorable(store, source, storage, TimeToTs(ms));
    }
  }

  /** The oldest base was taken on the first TSO of its millisecond. */
  ghost predicate EarliestIsExact(store: Store, source: string, storage: string)
    requires Streams(store, source, storage)
  {
    exists b :: Oldest(store, source, storage, b) && b.ts % TICK == 0
  }

  /** In particular every whole second after the second the published earliest
      time is shown in, up to the published latest time, can be restored. */
  lemma WholeSecondsInTheWindowRestore(store: Store, self: string, source: string, storage: string, s: nat, w: Window)
    requires Able(store, self, source, storage) && WindowIsRight(store, source, storage, w) && w.Available?
    requires w.earliest / 1000 < s <= w.latest / 1000
    ensures Starts(store, self, source, storage, Date(s * 1000), Some(true))
  {
    WindowAndDecisionAgree(store, self, source, storage, s * 1000, w);
  }

  /** The oldest base was taken on the first TSO of a second. */
  ghost predicate EarliestIsWhole(store: Store, source: string, storage: string)
    requires Streams(store, source, storage)
  {
    exists b :: Oldest(store, source, storage, b) && b.ts % (1000 * TICK) == 0
  }

  /** The first TSO of a second is the one without counter of a whole second. */
  lemma WholeSecond(ts: nat)
    ensures ts % (1000 * TICK) == 0 <==> TsTime(ts) % 1000 == 0 && ts % TICK == 0
  {
    var ms, n := ts / TICK, ts % TICK;
    var s, r := ms / 1000, ms % 1000;
    assert ts == ms * TICK + n && ms == s * 1000 + r;
    assert ts == s * (1000 * TICK) + (r * TICK + n);
    assert r * TICK + n < 1000 * TICK;
    Remainder(ts, 1000 * TICK, s, r * TICK + n);
  }

  lemma Remainder(n: nat, k: nat, q: nat, r: nat)
    requires k > 0 && n == q * k + r && r < k
    ensures n % k == r
  {
    var p := n / k;
    assert n == p * k + n % k;
    assert p < q ==> (p + 1) * k <= q * k;
    assert p > q ==> (q + 1) * k <= p * k;
  }

  lemma EarliestIsWholeExactly(store: Store, source: string, storage: string, w: Window)
    requires WindowIsRight(store, source, storage, w) && w.Available?
    ensures EarliestIsWhole(store, source, storage) <==> EarliestIsExact(store, source, storage) && w.earliest % 1000 == 0
  {
    var o :| Oldest(store, source, storage, o) && w.earliest == o.ts / 0x4_0000;
    WholeSecond(o.ts);
    forall b | Oldest(store, source, storage, b) ensures b.ts == o.ts { }
  }

  /** Exactly which whole seconds can be restored: a date is stored to the second. */
  lemma SecondsRestore(store: Store, self: string, source: string, storage: string, s: nat, w: Window)
    requires Able(store, self, source, storage) && WindowIsRight(store, source, storage, w) && w.Available?
    ensures Starts(store, self, source, storage, Date(s * 1000), Some(true)) <==>
            && s <= w.latest / 1000
            && (w.earliest / 1000 < s || (w.earliest / 1000 == s && EarliestIsWhole(store, source, storage)))
  {
    WindowAndDecisionAgree(store, self, source, storage, s * 1000, w);
    EarliestIsWholeExactly(store, source, storage, w);
  }

  /** A window's earliest time is not after its latest. */
  lemma WindowEnds(store: Store, source: string, storage: string, w: Window)
    requires WindowIsRight(store, source, storage, w) && w.Available?
    ensures w.earliest <= w.latest
  {
    var o :| Oldest(store, source, storage, o) && w.earliest == o.ts / 0x4_0000;
    var t :| Restorable(store, source, storage, t);
    TsTimeRounding(Log(store, source).checkpointTs.value, w.earliest);
    TsTimeRounding(o.ts, w.earliest);
    assert o.ts <= Log(store, source).checkpointTs.value;
  }

  /** "Every point in between is restorable" fails at the left end: times are stored
      to the second, and the published earliest one is refused unless the oldest base
      was taken on the first TSO of a second. */
  lemma EarliestItselfIsRefused(store: Store, self: string, source: string, storage: string, w: Window)
    requires Able(store, self, source, storage) && WindowIsRight(store, source, storage, w) && w.Available?
    ensures Starts(store, self, source, storage, Date(w.earliest / 1000 * 1000), Some(true)) <==> EarliestIsWhole(store, source, storage)
  {
    WindowEnds(store, source, storage, w);
    SecondsRestore(store, self, source, storage, w.earliest / 1000, w);
  }

  /** A published window may hold no date at all, only the latest point: exactly
      when its ends show the same second and that is refused. */
  lemma WindowWithoutDates(store: Store, self: string, source: string, storage: string, w: Window)
    requires Able(store, self, source, storage) && WindowIsRight(store, source, storage, w) && w.Available?
    ensures (forall s: nat :: !Starts(store, self, source, storage, Date(s * 1000), Some(true))) <==>
            w.latest / 1000 <= w.earliest / 1000 && !EarliestIsWhole(store, source, storage)
  {
    forall s: nat
      ensures Starts(store, self, source, storage, Date(s * 1000), Some(true)) <==>
              && s <= w.latest / 1000
              && (w.earliest / 1000 < s || (w.earliest / 1000 == s && EarliestIsWhole(store, source, storage)))
    {
      SecondsRestore(store, self, source, storage, s, w);
    }
    EarliestItselfIsRefused(store, self, source, storage, w);
    assert w.earliest / 1000 < w.latest / 1000 ==>
             Starts(store, self, source, storage, Date(w.latest / 1000 * 1000), Some(true));
  }

  /** The TiKV group runs what the accepted targets name, and a log backup runs. */
  predicate RunsAccepted(store: Store, instance: string, target: map<Versions.Component, Semver.Text>)
  {
    && Versions.TiKV in target && instance in store.tikv && store.tikv[instance] == target[Versions.TiKV]
    && LogBackupName(instance) in store.br && !store.br[LogBackupName(instance)].deleting
  }

  /** Upgrade validation does not look at the "v" of a version, the check for a
      restore next to a log backup does. Of the targets the validation accepts,
      those with TiKV at 8.5.5 or above are free to be restored into with the "v"
      and refused without it, and the others refused. */
  lemma RestoreNextToLogNeedsTheV(store: Store, instance: string, target: map<Versions.Component, Semver.Text>,
                                  groups: map<Versions.Component, Semver.Text>, v: bool)
    requires Versions.Ordered(target) && Versions.NoDowngrade(groups, target) && RunsAccepted(store, instance, target)
    ensures var t := Versions.TiKV; var rewritten := target[t := target[t].(prefixed := v)];
      var after := store.(tikv := store.tikv[instance := rewritten[t]]);
      && Versions.Ordered(rewritten) && Versions.NoDowngrade(groups, rewritten)
      && !Stopping(after, instance)
      && (Unblocked(after, instance) <==>
            v && !Semver.Precedes(target[t].version.value, Semver.Version(8, 5, 5, [])))
  {
    var rewritten := target[Versions.TiKV := target[Versions.TiKV].(prefixed := v)];
    assert forall c :: c in target ==> rewritten[c].version == target[c].version;
  }
}
