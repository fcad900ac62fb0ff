/** Runs that reach what LogBackupRun excludes under a condition. */
module LogBackupLimits {
  import opened Wrappers
  import opened LogBackupRun

  const ENABLED: Option<seq<StorageSpec>> := Some([StorageSpec("s", true)])

  lemma EnabledIsWanted()
    ensures Wanted(ENABLED) == Some("s")
  {
  }

  /** A ready cluster whose storage "s" has a bucket. */
  predicate Up(e: Env)
  {
    e.spec == ENABLED && e.clusterReady && e.seeded.None? && !e.nextToLog && BucketOf(e, "s") == Some("b")
  }

  /** A pass on such a cluster starts the stream. */
  lemma PassStarts(w: World)
    requires w.stream.pass.Idle? && w.stream.log.None? && Up(w.env)
    ensures var v := Exec(w, PASS);
      && v.env == w.env && v.restores == w.restores && v.stream.pass.Idle? && v.stream.secret == Some("s")
      && v.stream.log == Some(LogBackup(|w.stream.births|, "s", "b", false)) && |v.stream.births| == |w.stream.births| + 1
  {
    EnabledIsWanted();
    PassSettles(w);
  }

  /** A first stream, with no restore. */
  lemma Streaming() returns (actions: seq<Action>, w: World)
    ensures w == Exec(Fresh(ENABLED, false), actions) && Inv(w)
    ensures Up(w.env) && w.restores == Restores(map[], {}, map[]) && w.stream.pass.Idle? && |w.stream.births| == 1
    ensures w.stream.log == Some(LogBackup(0, "s", "b", false))
  {
    var f := Fresh(ENABLED, false);
    actions := [SetReady(true)];
    ExecOne(f, SetReady(true));
    Then(f, actions, SetStorage("s", Some("b")));
    actions := actions + [SetStorage("s", Some("b"))];
    PassStarts(Exec(f, actions));
    ExecAppend(f, actions, PASS);
    actions := actions + PASS;
    RunKeeps(f, actions);
    w := Exec(f, actions);
  }

  /** A restore waits for seeding, but not the other way round: recovery is turned
      on while a restore started by hand runs. */
  lemma SomeRunConflicts() returns (actions: seq<Action>)
    ensures Conflict(Exec(Fresh(None, false), actions))
  {
    var f := Fresh(None, false);
    actions := [BeginRestore("r")];
    ExecOne(f, BeginRestore("r"));
    Then(f, actions, StepRestore("r"));
    actions := actions + [StepRestore("r")];
    Then(f, actions, StepRestore("r"));
    actions := actions + [StepRestore("r")];
    var w := Exec(f, actions);
    assert w.restores.running == map["r" := true] && w.stream.log.None? && w.stream.pass.Idle?;
    Then(f, actions, SetReady(true));
    actions := actions + [SetReady(true)];
    Then(f, actions, SetStorage("s", Some("b")));
    actions := actions + [SetStorage("s", Some("b"))];
    Then(f, actions, Edit(ENABLED));
    actions := actions + [Edit(ENABLED)];
    w := Exec(f, actions);
    PassStarts(w);
    ExecAppend(f, actions, PASS);
    actions := actions + PASS;
    assert Exec(f, actions).restores.running["r"];
  }

  /** A restore's pass is past its check, and the cluster ready. */
  lemma CheckedRestore() returns (actions: seq<Action>, w: World)
    ensures w == Exec(Fresh(ENABLED, false), actions)
    ensures Up(w.env) && w.restores == Restores(map[], {}, map["r" := Checked(0)]) && w.stream.log.None? && w.stream.pass.Idle?
  {
    var f := Fresh(ENABLED, false);
    actions := [BeginRestore("r")];
    ExecOne(f, BeginRestore("r"));
    Then(f, actions, SetReady(true));
    actions := actions + [SetReady(true)];
    Then(f, actions, SetStorage("s", Some("b")));
    actions := actions + [SetStorage("s", Some("b"))];
    w := Exec(f, actions);
  }

  /** A BR Restore is created next to a log backup that excludes it: the log backup
      is created between the restore's check and its creation. */
  lemma SomeRestoreStartsUnderALog() returns (actions: seq<Action>)
    ensures var w := Exec(Fresh(ENABLED, false), actions);
      && Inv(w) && !Conflict(w) && StartsRestore(w, StepRestore("r")) && Conflict(Apply(w, StepRestore("r")))
  {
    var f, w := Fresh(ENABLED, false), Fresh(ENABLED, false);
    actions, w := CheckedRestore();
    PassStarts(w);
    ExecAppend(f, actions, PASS);
    actions := actions + PASS;
    w := Exec(f, actions);
    PreparesNext(w);
    Then(f, actions, StepRestore("r"));
    actions := actions + [StepRestore("r")];
    RunKeeps(f, actions);
    ConflictStep(Exec(f, actions), StepRestore("r"));
  }

  lemma PreparesNext(w: World)
    requires w.restores == Restores(map[], {}, map["r" := Checked(0)]) && Exclusive(w)
    ensures var v := Apply(w, StepRestore("r"));
      !Conflict(v) && Exclusive(v) && StartsRestore(v, StepRestore("r"))
  {
    var v := Apply(w, StepRestore("r"));
    assert v.restores == Restores(map[], {"r"}, map["r" := Prepared(0)]);
  }

  /** A pass that has found the log backup, up to its apply. */
  lemma FindsIt(w: World) returns (mid: seq<Action>)
    requires w.stream.pass.Idle? && Up(w.env) && w.stream.log.Some? && !w.stream.log.value.deleting && w.stream.log.value.storage == "s"
    ensures var v := Exec(w, mid);
      v.stream.pass == Applying("s", true, "b") && v.stream.log == w.stream.log && v.stream.births == w.stream.births
  {
    EnabledIsWanted();
    mid := [Begin];
    ExecOne(w, Begin);
    Then(w, mid, Step);
    mid := mid + [Step];
    assert Exec(w, mid).stream.pass == ReadingStorage("s", true);
    Then(w, mid, Step);
    mid := mid + [Step];
    Then(w, mid, Step);
    mid := mid + [Step];
  }

  /** And what comes of it when the log backup goes, and the cluster is not ready. */
  lemma GoesAndComesBack(w: World) returns (mid: seq<Action>)
    requires w.stream.pass == Applying("s", true, "b") && w.stream.log.Some? && |w.stream.births| == 1
    ensures var s := Exec(w, mid).stream; |s.births| == 2 && !s.births[1].ready
  {
    mid := [SetReady(false)];
    ExecOne(w, SetReady(false));
    Then(w, mid, DeleteLogBackup);
    mid := mid + [DeleteLogBackup];
    Then(w, mid, Stopped);
    mid := mid + [Stopped];
    var s := Exec(w, mid).stream;
    assert s.log.None? && !s.wasReady && s.pass == w.stream.pass && s.births == w.stream.births;
    Then(w, mid, Step);
    mid := mid + [Step];
  }

  /** A log backup that is deleted by somebody else in the middle of a pass comes
      back although the cluster is not ready. */
  lemma SomeRunSkipsTheCheck() returns (actions: seq<Action>)
    ensures var w := Exec(Fresh(ENABLED, false), actions).stream; |w.births| == 2 && !w.births[1].ready
  {
    var f, w := Fresh(ENABLED, false), Fresh(ENABLED, false);
    actions, w := Streaming();
    var mid := FindsIt(w);
    ExecAppend(f, actions, mid);
    actions := actions + mid;
    mid := GoesAndComesBack(Exec(f, actions));
    ExecAppend(f, actions, mid);
    actions := actions + mid;
  }

  /** A log backup moves to another bucket when its BackupStorage is edited: the
      next pass applies it again. */
  lemma SomeRunMovesTheBucket() returns (before: seq<Action>, after: seq<Action>)
    ensures var w := Exec(Fresh(ENABLED, false), before);
      && SameObject(w, after) && Exec(w, after).stream.log.value.bucket != w.stream.log.value.bucket
  {
    var w;
    before, w := Streaming();
    after := [SetStorage("s", Some("c"))];
    ExecOne(w, SetStorage("s", Some("c")));
    EnabledIsWanted();
    PassSettles(Exec(w, after));
    ExecAppend(w, after, PASS);
    after := after + PASS;
  }
}
