/** Every step of a run of the backup scheduler keeps the invariant. */
module BackupRunInvariant {
  import opened Wrappers
  import opened Slots
  import opened Retention
  import opened BackupRun

  lemma TickKeeps(c: Config, w: World, to: Time)
    requires Valid(c) && Inv(c, w) && w.now <= to < c.end
    ensures Inv(c, w.(now := to))
  {
    var v := w.(now := to);
    forall i | 0 <= i < |v.log| ensures LogOk(c, v, i) {
      assert LogOk(c, w, i);
      var (s, slot) := w.log[i];
      if DueSlot(c.crons[s], to) == Some(slot) {
        DueSlotIsStable(c.crons[s], w.now, to);
      }
    }
    forall n | n in v.entries ensures EntryOk(c, v, n) { assert EntryOk(c, w, n); }
    forall n, m | n in v.entries && m in v.entries ensures PairOk(v, n, m) { assert PairOk(w, n, m); }
  }

  lemma FiredIsNewest(c: Config, w: World, s: string, can: bool, n: string)
    requires Valid(c) && s in c.crons && Fired(c, w, s, can).Some?
    requires n in w.entries && EntryOk(c, w, n) && w.entries[n].b.schedule == s
    ensures w.entries[n].slot < DueSlot(c.crons[s], w.now).value && Finished(w.entries[n].b)
    ensures w.entries[n].b.created < DueSlot(c.crons[s], w.now).value
  {
    var slot := DueSlot(c.crons[s], w.now).value;
    assert EntryOk(c, w, n);
    assert w.entries[n].slot <= slot;
  }

  /** A slot that has come up is not after the second it is. */
  lemma SlotIsPast(slot: Time, now: Time)
    requires slot % MINUTE == 0 && slot <= now
    ensures slot <= Floor(now) <= now
  {
    var m, t := slot / MINUTE, now / SECOND;
    assert slot == 60 * m * SECOND && t * SECOND <= now < (t + 1) * SECOND;
    assert 60 * m <= t;
  }

  /** The slot that is due, and that nothing active lies between it and now. */
  lemma DueFacts(c: Config, s: string, now: Time)
    requires s in c.crons && IsCron(c.crons[s]) && DueSlot(c.crons[s], now).Some? && Clock(c, now)
    ensures var slot := DueSlot(c.crons[s], now).value;
      && IsSlot(c, s, slot) && slot <= Floor(now) <= now
      && forall u :: Active(c.crons[s], u) && slot < u ==> now < u
  {
    var slot := DueSlot(c.crons[s], now).value;
    NextIsLeastActivation(c.crons[s], slot - 1);
    SlotIsPast(slot, now);
  }

  lemma AddedEntry(c: Config, w: World, s: string, can: bool)
    requires Valid(c) && Clock(c, w.now) && s in c.crons && Fired(c, w, s, can).Some?
    ensures EntryOk(c, Added(w, Fired(c, w, s, can).value, s, DueSlot(c.crons[s], w.now).value), Fired(c, w, s, can).value)
  {
    DueFacts(c, s, w.now);
  }

  lemma AddedEntries(c: Config, w: World, s: string, can: bool)
    requires Valid(c) && Inv(c, w) && s in c.crons && Fired(c, w, s, can).Some?
    ensures var v := Added(w, Fired(c, w, s, can).value, s, DueSlot(c.crons[s], w.now).value);
      forall n :: n in v.entries ==> EntryOk(c, v, n)
  {
    var name := Fired(c, w, s, can).value;
    var v := Added(w, name, s, DueSlot(c.crons[s], w.now).value);
    AddedEntry(c, w, s, can);
    forall n | n in v.entries && n != name ensures EntryOk(c, v, n) { assert EntryOk(c, w, n); }
  }

  lemma AddedPairs(c: Config, w: World, s: string, can: bool)
    requires Valid(c) && Inv(c, w) && s in c.crons && Fired(c, w, s, can).Some?
    ensures var v := Added(w, Fired(c, w, s, can).value, s, DueSlot(c.crons[s], w.now).value);
      forall n, m :: n in v.entries && m in v.entries ==> PairOk(v, n, m)
  {
    var name := Fired(c, w, s, can).value;
    var v := Added(w, name, s, DueSlot(c.crons[s], w.now).value);
    forall n, m | n in v.entries && m in v.entries ensures PairOk(v, n, m) {
      if n != name && m != name {
        assert PairOk(w, n, m);
      } else if n != name {
        AddedPair(c, w, s, can, n);
      } else if m != name {
        AddedPair(c, w, s, can, m);
      }
    }
  }

  lemma AddedPair(c: Config, w: World, s: string, can: bool, n: string)
    requires Valid(c) && Clock(c, w.now) && s in c.crons && Fired(c, w, s, can).Some? && n in w.entries && EntryOk(c, w, n)
    ensures var name := Fired(c, w, s, can).value;
      var v := Added(w, name, s, DueSlot(c.crons[s], w.now).value);
      PairOk(v, n, name) && PairOk(v, name, n)
  {
    DueFacts(c, s, w.now);
    if w.entries[n].b.schedule == s { FiredIsNewest(c, w, s, can, n); }
  }

  lemma AddedLog(c: Config, w: World, s: string, can: bool)
    requires Valid(c) && Inv(c, w) && s in c.crons && Fired(c, w, s, can).Some?
    ensures var v := Added(w, Fired(c, w, s, can).value, s, DueSlot(c.crons[s], w.now).value);
      && (forall i :: 0 <= i < |v.log| ==> LogOk(c, v, i))
      && (forall i, j :: 0 <= i < j < |v.log| ==> v.log[i] != v.log[j])
  {
    var slot := DueSlot(c.crons[s], w.now).value;
    var v := Added(w, Fired(c, w, s, can).value, s, slot);
    DueFacts(c, s, w.now);
    forall i | 0 <= i < |v.log| ensures LogOk(c, v, i) {
      if i < |w.log| { assert LogOk(c, w, i) && v.log[i] == w.log[i]; }
    }
    forall i | 0 <= i < |w.log| ensures w.log[i] != (s, slot) {
      assert LogOk(c, w, i);
    }
  }

  lemma FireKeeps(c: Config, w: World, s: string, can: bool)
    requires Valid(c) && Inv(c, w) && s in c.crons && Fired(c, w, s, can).Some?
    ensures Inv(c, Added(w, Fired(c, w, s, can).value, s, DueSlot(c.crons[s], w.now).value))
  {
    AddedEntries(c, w, s, can);
    AddedPairs(c, w, s, can);
    AddedLog(c, w, s, can);
  }

  /** v keeps what the invariant says of backup n: only its state moves forward. */
  ghost predicate Carries(w: World, v: World, n: string)
    requires n in v.entries
  {
    && n in w.entries
    && var e, f := w.entries[n], v.entries[n];
    && f.slot == e.slot && f.ts == e.ts
    && f.b.name == e.b.name && f.b.schedule == e.b.schedule && f.b.created == e.b.created
    && (Finished(e.b) ==> Finished(f.b))
    && (f.b.deleting ==> Finished(f.b)) && (f.b.state.Succeeded? ==> f.ts > 0)
  }

  lemma CarriedEntries(c: Config, w: World, v: World)
    requires Valid(c) && EntriesOk(c, w) && v.now == w.now && v.tso == w.tso
    requires forall n :: n in v.entries ==> Carries(w, v, n)
    ensures forall n :: n in v.entries ==> EntryOk(c, v, n)
    ensures forall n, m :: n in v.entries && m in v.entries ==> PairOk(v, n, m)
  {
    forall n | n in v.entries ensures EntryOk(c, v, n) {
      assert Carries(w, v, n) && EntryOk(c, w, n);
    }
    forall n, m | n in v.entries && m in v.entries ensures PairOk(v, n, m) {
      assert Carries(w, v, n) && Carries(w, v, m) && PairOk(w, n, m);
    }
  }

  lemma ExpireKeeps(c: Config, w: World, s: string, r: Retention, n: string)
    requires Valid(c) && Inv(c, w) && n in w.entries && RetentionAt(r, w.now)
    requires w.entries[n].b.schedule == s && IsExpired(OfSchedule(w, s), r, w.entries[n].b)
    ensures Inv(c, Apply(c, w, Expire(s, r, n)))
  {
    var v := Apply(c, w, Expire(s, r, n));
    forall m | m in v.entries ensures Carries(w, v, m) { assert EntryOk(c, w, m); }
    CarriedEntries(c, w, v);
    forall i | 0 <= i < |v.log| ensures LogOk(c, v, i) {
      assert LogOk(c, w, i);
      ExpireKeepsLog(c, w, r, n, i);
    }
  }

  lemma ExpireKeepsLog(c: Config, w: World, r: Retention, n: string, i: nat)
    requires Valid(c) && EntriesOk(c, w) && n in w.entries && RetentionAt(r, w.now)
    requires IsExpired(OfSchedule(w, w.entries[n].b.schedule), r, w.entries[n].b)
    requires i < |w.log| && LogOk(c, w, i)
    ensures var (t, slot) := w.log[i]; DueSlot(c.crons[t], w.now) == Some(slot) ==> c.nameOf(t, slot) != n
  {
    var (t, slot) := w.log[i];
    assert EntryOk(c, w, n);
    if DueSlot(c.crons[t], w.now) == Some(slot) && c.nameOf(t, slot) == n {
      NextIsLeastActivation(c.crons[t], slot - 1);
      assert w.entries[n].slot == slot;
      DueBackupIsNeverExpired(c, w, n, r);
    }
  }

  lemma SnapshotKeeps(c: Config, w: World, n: string)
    requires Valid(c) && Inv(c, w) && Unfinished(w, n) && w.entries[n].ts == 0
    ensures Inv(c, Snapped(w, n))
  {
    var v := Snapped(w, n);
    forall i | 0 <= i < |v.log| ensures LogOk(c, v, i) { assert LogOk(c, w, i); }
    forall m | m in v.entries ensures EntryOk(c, v, m) { assert EntryOk(c, w, m); }
    SnapshotPairs(c, w, n);
  }

  lemma SnapshotPairs(c: Config, w: World, n: string)
    requires Valid(c) && EntriesOk(c, w) && Unfinished(w, n) && w.entries[n].ts == 0
    ensures forall m, k :: m in w.entries && k in w.entries ==> PairOk(Snapped(w, n), m, k)
  {
    forall m, k | m in w.entries && k in w.entries ensures PairOk(Snapped(w, n), m, k) {
      assert PairOk(w, m, k) && EntryOk(c, w, m) && EntryOk(c, w, k);
    }
  }

  /** Start, Finish and Gone leave slots, creation times and snapshots alone. */
  lemma ProgressKeeps(c: Config, w: World, a: Action)
    requires Valid(c) && Inv(c, w) && (a.Start? || a.Finish? || a.Gone?)
    ensures Inv(c, Apply(c, w, a))
  {
    var v := Apply(c, w, a);
    ProgressCarries(c, w, a);
    CarriedEntries(c, w, v);
    ProgressLog(c, w, a);
  }

  lemma ProgressCarries(c: Config, w: World, a: Action)
    requires Valid(c) && EntriesOk(c, w) && (a.Start? || a.Finish? || a.Gone?)
    ensures var v := Apply(c, w, a);
      v.now == w.now && v.tso == w.tso && v.log == w.log && forall m :: m in v.entries ==> Carries(w, v, m)
  {
    forall m | m in Apply(c, w, a).entries ensures Carries(w, Apply(c, w, a), m) { assert EntryOk(c, w, m); }
  }

  lemma ProgressLog(c: Config, w: World, a: Action)
    requires Valid(c) && Inv(c, w) && (a.Start? || a.Finish? || a.Gone?)
    ensures var v := Apply(c, w, a); forall i :: 0 <= i < |v.log| ==> LogOk(c, v, i)
  {
    forall i | 0 <= i < |w.log| ensures LogOk(c, Apply(c, w, a), i) { assert LogOk(c, w, i); }
  }

  lemma StepKeeps(c: Config, w: World, a: Action)
    requires Valid(c) && Inv(c, w)
    ensures Inv(c, Apply(c, w, a))
  {
    if Apply(c, w, a) != w {
      match a
      case Tick(to) => TickKeeps(c, w, to);
      case Fire(s, can) => FireKeeps(c, w, s, can);
      case Expire(s, r, n) => ExpireKeeps(c, w, s, r, n);
      case Snapshot(n) => SnapshotKeeps(c, w, n);
      case _ => ProgressKeeps(c, w, a);
    }
  }

  lemma {:induction false} RunKeeps(c: Config, w: World, actions: seq<Action>)
    requires Valid(c) && Inv(c, w)
    ensures Inv(c, Exec(c, w, actions))
    decreases |actions|
  {
    if actions != [] {
      StepKeeps(c, w, actions[0]);
      RunKeeps(c, Apply(c, w, actions[0]), actions[1..]);
    }
  }
}
