/** The teardown of a deleted Instance: Cleanup passes of the provider, TiDB
    Operator removing the cluster, and anybody deleting the objects themselves,
    interleaved in any order. */
module Teardown {
  datatype Component = Pd | Tikv | Tidb | Tiflash | Tiproxy

  const KINDS: seq<Component> := [Pd, Tikv, Tidb, Tiflash, Tiproxy]

  datatype Phase = Live | Deleted | Gone

  datatype Stage = Absent | Present | Terminating

  /** Where the Cleanup pass is: Scanning has looked at the Cluster and at the
      first k kinds of groups and then members, and counted what is left. */
  datatype Pass =
    | Idle
    | ReadingLog
    | DeletingLog
    | CheckingRelease
    | Releasing
    | ReadingCluster
    | DeletingCluster
    | Scanning(k: nat, left: nat)

  /** The Instance, its log backup, its Cluster and the Cluster's groups and
      members. The last two fields are history: whether the provider deleted the
      Cluster under a log backup, and whether it dropped the operator's finalizer
      on the log backup while there was a Cluster. */
  datatype World = World(
    instance: Phase,
    log: Stage,
    cluster: Stage,
    groups: set<Component>,
    members: multiset<Component>,
    pass: Pass,
    deletedUnderLog: bool,
    releasedUnderCluster: bool)

  datatype Action =
    // the provider
    | Step
    | Crash
    | CreateCluster
    | CreateGroup(kind: Component)
    | CreateLogBackup
    // TiDB Operator and the garbage collector
    | CreateMember(kind: Component)
    | StopStream
    | StopStreamLate
    | RemoveMember(kind: Component)
    | RemoveGroup(kind: Component)
    | RemoveCluster
    // users
    | CreateInstance
    | DeleteInstance
    | DeleteLogBackup
    | DeleteCluster

  function Deleting(s: Stage): Stage
  {
    if s.Absent? then Absent else Terminating
  }

  /** What the kth look of a pass finds: groups first, then members. */
  function Found(w: World, k: nat): nat
  {
    if k < |KINDS| then (if KINDS[k] in w.groups then 1 else 0)
    else if k < 2 * |KINDS| then w.members[KINDS[k - |KINDS|]]
    else 0
  }

  function ProviderStep(w: World): World
  {
    match w.pass
    case Idle => if w.instance.Deleted? then w.(pass := ReadingLog) else w
    case ReadingLog =>
      w.(pass := match w.log
                 case Absent => ReadingCluster
                 case Present => DeletingLog
                 case Terminating => CheckingRelease)
    case DeletingLog => w.(log := Deleting(w.log), pass := Idle)
    case CheckingRelease => w.(pass := if w.cluster.Absent? then Releasing else Idle)
    case Releasing =>
      w.(log := if w.log.Terminating? then Absent else w.log,
         releasedUnderCluster := w.releasedUnderCluster || (w.log.Terminating? && !w.cluster.Absent?),
         pass := Idle)
    case ReadingCluster =>
      w.(pass := match w.cluster
                 case Absent => Scanning(0, 0)
                 case Present => DeletingCluster
                 case Terminating => Scanning(0, 1))
    case DeletingCluster =>
      w.(cluster := Deleting(w.cluster),
         deletedUnderLog := w.deletedUnderLog || !w.log.Absent?,
         pass := Scanning(0, 1))
    case Scanning(k, left) =>
      if k < 2 * |KINDS| then w.(pass := Scanning(k + 1, left + Found(w, k)))
      else if left > 0 then w.(pass := Idle)
      else w.(pass := Idle, instance := Gone)
  }

  function Apply(w: World, a: Action): World
  {
    match a
    case Step => ProviderStep(w)
    case Crash => w.(pass := Idle)
    case CreateCluster => if w.instance.Live? && w.cluster.Absent? then w.(cluster := Present) else w
    case CreateGroup(c) => if w.instance.Live? then w.(groups := w.groups + {c}) else w
    case CreateLogBackup => if w.instance.Live? && w.cluster.Present? && w.log.Absent? then w.(log := Present) else w
    case CreateMember(c) => if w.cluster.Present? && c in w.groups then w.(members := w.members + multiset{c}) else w
    case StopStream => if w.log.Terminating? && w.cluster.Present? then w.(log := Absent) else w
    case StopStreamLate => if w.log.Terminating? && w.cluster.Terminating? then w.(log := Absent) else w
    case RemoveMember(c) => if !w.cluster.Present? then w.(members := w.members - multiset{c}) else w
    case RemoveGroup(c) => if !w.cluster.Present? then w.(groups := w.groups - {c}) else w
    case RemoveCluster => if w.cluster.Terminating? then w.(cluster := Absent) else w
    case CreateInstance => if w.instance.Gone? then w.(instance := Live) else w
    case DeleteInstance => if w.instance.Live? then w.(instance := Deleted) else w
    case DeleteLogBackup => w.(log := Deleting(w.log))
    case DeleteCluster => w.(cluster := Deleting(w.cluster))
  }

  function Exec(w: World, actions: seq<Action>): World
    decreases |actions|
  {
    if actions == [] then w else Exec(Apply(w, actions[0]), actions[1..])
  }

  const FRESH := World(Gone, Absent, Absent, {}, multiset{}, Idle, false, false)

  // ------------------------------------------------------------------- safety

  predicate NothingLeft(w: World)
  {
    w.log.Absent? && w.cluster.Absent? && w.groups == {} && w.members == multiset{}
  }

  ghost predicate PassOk(w: World)
  {
    match w.pass
    case Idle => true
    case Releasing => w.cluster.Absent?
    case ReadingCluster | DeletingCluster => w.log.Absent?
    case Scanning(k, left) =>
      && w.log.Absent? && !w.cluster.Present? && k <= 2 * |KINDS|
      && (left == 0 ==> w.cluster.Absent? && forall j: nat :: j < k ==> Found(w, j) == 0)
    case _ => true
  }

  ghost predicate Inv(w: World)
  {
    && (w.instance.Gone? ==> NothingLeft(w))
    && (!w.pass.Idle? ==> w.instance.Deleted? && PassOk(w))
    && !w.deletedUnderLog && !w.releasedUnderCluster
  }

  /** Having found nothing of any kind, there is nothing. */
  lemma ScannedAll(w: World)
    requires forall j: nat :: j < 2 * |KINDS| ==> Found(w, j) == 0
    ensures w.groups == {} && w.members == multiset{}
  {
    forall c: Component ensures c !in w.groups && w.members[c] == 0 {
      var i: nat := match c case Pd => 0 case Tikv => 1 case Tidb => 2 case Tiflash => 3 case Tiproxy => 4;
      assert KINDS[i] == c && Found(w, i) == 0 && Found(w, 5 + i) == 0;
    }
  }

  lemma ProviderKeeps(w: World)
    requires Inv(w)
    ensures Inv(ProviderStep(w))
  {
    if w.pass.Scanning? && w.pass.k == 2 * |KINDS| && w.pass.left == 0 {
      ScannedAll(w);
    }
    assert forall j: nat :: Found(ProviderStep(w), j) == Found(w, j);
  }

  /** Once the Cluster is gone, what a pass has not found does not appear. */
  lemma StepKeeps(w: World, a: Action)
    requires Inv(w)
    ensures Inv(Apply(w, a))
  {
    if a.Step? {
      ProviderKeeps(w);
    } else if w.pass.Scanning? {
      assert forall j: nat :: !w.cluster.Present? && !w.instance.Live? && Found(w, j) == 0 ==> Found(Apply(w, a), j) == 0;
    }
  }

  lemma {:induction false} RunKeeps(w: World, actions: seq<Action>)
    requires Inv(w)
    ensures Inv(Exec(w, actions))
    decreases |actions|
  {
    if actions != [] {
      StepKeeps(w, actions[0]);
      RunKeeps(Apply(w, actions[0]), actions[1..]);
    }
  }

  /** In every run the provider deletes the Cluster only once the log backup is
      gone, drops the operator's finalizer only once the Cluster is gone, and lets
      the Instance go only when nothing is left of it: an Instance created again
      under the same name meets no log backup, Cluster, group or member. */
  lemma TeardownIsOrdered(actions: seq<Action>)
    ensures var w := Exec(FRESH, actions);
      && !w.deletedUnderLog && !w.releasedUnderCluster
      && (w.instance.Gone? ==> NothingLeft(w))
  {
    RunKeeps(FRESH, actions);
  }

  // ----------------------------------------------------------------- liveness

  /** Who has to act next for the teardown to go on. */
  function Duty(w: World): Action
  {
    if w.log.Present? then Step
    else if w.log.Terminating? && w.cluster.Present? then StopStream
    else if w.log.Absent? && w.cluster.Present? then Step
    else if w.members != multiset{} then RemoveMember(Least(w.members))
    else if w.groups != {} then RemoveGroup(Least(multiset(w.groups)))
    else if w.cluster.Terminating? then RemoveCluster
    else Step
  }

  function Least(m: multiset<Component>): Component
  {
    if Pd in m then Pd else if Tikv in m then Tikv else if Tidb in m then Tidb else if Tiflash in m then Tiflash else Tiproxy
  }

  function Height(s: Stage): nat
  {
    match s case Absent => 0 case Terminating => 1 case Present => 2
  }

  /** Steps until the pass does its duty: this one, or the next when it began
      before there was this duty. */
  function Rank(w: World): nat
  {
    if !Duty(w).Step? then 0
    else if w.log.Present? then
      (match w.pass case DeletingLog => 1 case ReadingLog => 2 case Idle => 3 case CheckingRelease => 5 case _ => 4)
    else if w.log.Terminating? then
      (match w.pass case Releasing => 1 case CheckingRelease => 2 case ReadingLog => 3 case Idle => 4 case _ => 5)
    else if w.cluster.Present? then
      (match w.pass
       case DeletingCluster => 1 case ReadingCluster => 2 case ReadingLog => 3 case Idle => 4 case CheckingRelease => 6 case _ => 5)
    else
      (match w.pass
       case Scanning(k, left) => if left == 0 then ScanSteps(k) else ScanSteps(k) + 14
       case ReadingCluster => 12 case ReadingLog => 13 case Idle => 14 case DeletingCluster => 26 case CheckingRelease => 16 case _ => 15)
  }

  /** Looks a scan still has to take, and its end. */
  function ScanSteps(k: nat): nat
  {
    if k <= 10 then 11 - k else 1
  }

  /** What is left to tear down, once nothing is created any more. */
  function Left(w: World): nat
  {
    if w.cluster.Present? then 0 else |w.groups| + |w.members|
  }

  predicate Below(a: (nat, nat, nat), b: (nat, nat, nat))
  {
    a.0 < b.0 || (a.0 == b.0 && (a.1 < b.1 || (a.1 == b.1 && a.2 < b.2)))
  }

  function Measure(w: World): (nat, nat, nat)
  {
    (Height(w.log) + Height(w.cluster), Left(w), Rank(w))
  }

  lemma SizesDrop(w: World, c: Component)
    ensures |w.members - multiset{c}| == if c in w.members then |w.members| - 1 else |w.members|
    ensures |w.groups - {c}| == if c in w.groups then |w.groups| - 1 else |w.groups|
    ensures c !in w.members ==> w.members - multiset{c} == w.members
    ensures c !in w.groups ==> w.groups - {c} == w.groups
  {
    if c in w.groups { assert w.groups == (w.groups - {c}) + {c}; } else { assert w.groups - {c} == w.groups; }
    if c in w.members { assert w.members == (w.members - multiset{c}) + multiset{c}; } else { assert w.members - multiset{c} == w.members; }
  }

  lemma LeastIsThere(m: multiset<Component>)
    requires m != multiset{}
    ensures Least(m) in m
  {
    var c :| c in m;
    assert c == Pd || c == Tikv || c == Tidb || c == Tiflash || c == Tiproxy;
  }

  /** A provider step lowers the measure when it is the provider's turn, and
      changes nothing else when it is not. */
  lemma ProviderProgress(w: World)
    requires Inv(w) && w.instance.Deleted?
    ensures var v := ProviderStep(w);
      || v.instance.Gone? || Below(Measure(v), Measure(w))
      || (!Duty(w).Step? && Measure(v) == Measure(w) && Duty(v) == Duty(w))
  {
    var v := ProviderStep(w);
    if v.log == w.log && v.cluster == w.cluster && v.instance == w.instance {
      assert Duty(v) == Duty(w);
      if Duty(w).Step? { ProviderRanks(w); }
    }
  }

  lemma ProviderRanks(w: World)
    requires Inv(w) && w.instance.Deleted? && Duty(w).Step?
    requires var v := ProviderStep(w); v.log == w.log && v.cluster == w.cluster && v.instance == w.instance
    ensures Rank(ProviderStep(w)) < Rank(w)
  {
    var v := ProviderStep(w);
    assert Duty(v) == Duty(w);
    if w.pass.Scanning? {
      assert w.groups == {} && w.members == multiset{};
      assert Found(w, w.pass.k) == 0;
    }
  }

  lemma RemovalProgress(w: World, a: Action)
    requires a.RemoveMember? || a.RemoveGroup?
    ensures Apply(w, a) == w || Below(Measure(Apply(w, a)), Measure(w))
  {
    SizesDrop(w, a.kind);
  }

  /** No step sets the teardown back, and a step changes whose turn it is only by
      getting on with it. */
  lemma NothingSetsBack(w: World, a: Action)
    requires Inv(w) && w.instance.Deleted? && !a.Crash?
    ensures var v := Apply(w, a);
      v.instance.Gone? || Below(Measure(v), Measure(w)) || (Measure(v) == Measure(w) && Duty(v) == Duty(w))
  {
    if a.Step? {
      ProviderProgress(w);
    } else if a.RemoveMember? || a.RemoveGroup? {
      RemovalProgress(w, a);
    }
  }

  lemma DutyGetsOn(w: World)
    requires Inv(w) && w.instance.Deleted?
    ensures var v := Apply(w, Duty(w)); v.instance.Gone? || Below(Measure(v), Measure(w))
  {
    var a := Duty(w);
    if a.Step? {
      ProviderProgress(w);
    } else if a.RemoveMember? {
      LeastIsThere(w.members);
      SizesDrop(w, a.kind);
    } else if a.RemoveGroup? {
      assert multiset(w.groups) != multiset{} by { var c :| c in w.groups; assert c in multiset(w.groups); }
      LeastIsThere(multiset(w.groups));
      SizesDrop(w, a.kind);
    }
  }

  /** How far the teardown is, whatever the provider is at. */
  function Level(w: World): (nat, nat)
  {
    (Height(w.log) + Height(w.cluster), Left(w))
  }

  predicate Lower(a: (nat, nat), b: (nat, nat))
  {
    a.0 < b.0 || (a.0 == b.0 && a.1 < b.1)
  }

  /** v is as far as w, with the same to do next. */
  predicate SamePlace(v: World, w: World)
  {
    v.log == w.log && v.cluster == w.cluster && Level(v) == Level(w) && Duty(v) == Duty(w)
  }

  /** v comes after w: further, or at the same place. */
  ghost predicate Ahead(v: World, w: World)
  {
    Inv(v) && v.instance.Deleted? && (Lower(Level(v), Level(w)) || SamePlace(v, w))
  }

  lemma ProviderIsAhead(w: World)
    requires w.instance.Deleted?
    ensures var v := ProviderStep(w);
      v.instance.Gone? || (v.instance.Deleted? && (Lower(Level(v), Level(w)) || SamePlace(v, w)))
  {
    var v := ProviderStep(w);
    if v.log == w.log && v.cluster == w.cluster {
      assert v.groups == w.groups && v.members == w.members;
    } else {
      assert Height(v.log) + Height(v.cluster) < Height(w.log) + Height(w.cluster);
    }
  }

  lemma RemovalIsAhead(w: World, a: Action)
    requires a.RemoveMember? || a.RemoveGroup?
    ensures var v := Apply(w, a); v.instance == w.instance && (Lower(Level(v), Level(w)) || SamePlace(v, w))
  {
    SizesDrop(w, a.kind);
    if Apply(w, a) != w {
      assert Left(Apply(w, a)) < Left(w);
    }
  }

  /** A stage that goes down makes the level lower, one that stays is what counts. */
  lemma StagesDecide(w: World, v: World)
    requires Height(v.log) <= Height(w.log) && Height(v.cluster) <= Height(w.cluster)
    requires v.groups == w.groups && (v.members == w.members || w.cluster.Present?)
    ensures Lower(Level(v), Level(w)) || SamePlace(v, w)
  {
  }

  lemma OthersAreAhead(w: World, a: Action)
    requires w.instance.Deleted? && !a.Step?
    ensures var v := Apply(w, a); v.instance.Deleted? && (Lower(Level(v), Level(w)) || SamePlace(v, w))
  {
    if a.RemoveMember? || a.RemoveGroup? {
      RemovalIsAhead(w, a);
    } else {
      StagesDecide(w, Apply(w, a));
    }
  }

  /** No step of anyone, a crash included, sets the teardown back. */
  lemma StepIsAhead(w: World, a: Action)
    requires Inv(w) && w.instance.Deleted?
    ensures Apply(w, a).instance.Gone? || Ahead(Apply(w, a), w)
  {
    StepKeeps(w, a);
    if a.Step? { ProviderIsAhead(w); } else { OthersAreAhead(w, a); }
  }

  lemma StaysAhead(w: World, v: World, a: Action)
    requires Ahead(v, w)
    ensures Apply(v, a).instance.Gone? || Ahead(Apply(v, a), w)
    ensures Apply(v, a).instance.Gone? || !Lower(Level(v), Level(w)) || Lower(Level(Apply(v, a)), Level(w))
  {
    StepIsAhead(v, a);
  }

  /** The operator and the collector do their duty in one step. */
  lemma OthersGetOn(w: World)
    requires Inv(w) && w.instance.Deleted? && !Duty(w).Step?
    ensures Lower(Level(Apply(w, Duty(w))), Level(w))
  {
    DutyGetsOn(w);
    StepIsAhead(w, Duty(w));
  }

  // ------------------------------------------------------------ infinite runs

  /** The state after n steps of an infinite run. */
  ghost function At(w: World, run: nat -> Action, n: nat): World
  {
    if n == 0 then w else Apply(At(w, run, n - 1), run(n - 1))
  }

  predicate IsDuty(a: Action)
  {
    a.Step? || a.StopStream? || a.RemoveMember? || a.RemoveGroup? || a.RemoveCluster?
  }

  ghost predicate Again(run: nat -> Action, a: Action, n: nat)
  {
    exists m: nat :: n <= m && run(m) == a
  }

  /** Between a and b the provider takes steps, does not crash, and is done: it
      has completed a pass. Others may act in between. */
  ghost predicate Completes(st: nat -> World, run: nat -> Action, a: nat, b: nat)
  {
    && a < b && st(a).pass.Idle? && st(b).pass.Idle?
    && (forall k: nat :: a <= k < b ==> !run(k).Crash?)
    && (exists k: nat :: a <= k < b && run(k).Step?)
  }

  ghost predicate CompletesAfter(st: nat -> World, run: nat -> Action, n: nat)
  {
    exists a: nat, b: nat :: n <= a && Completes(st, run, a, b)
  }

  /** The operator and the collector act again and again, and the provider
      completes a pass again and again, however often it crashes in between. What
      users do is not restricted. */
  ghost predicate Fair(st: nat -> World, run: nat -> Action)
  {
    && (forall a, n: nat :: IsDuty(a) && !a.Step? ==> Again(run, a, n))
    && (forall n: nat :: CompletesAfter(st, run, n))
  }

  /** The nth step of the run. */
  ghost predicate Follows(st: nat -> World, run: nat -> Action, n: nat)
  {
    st(n + 1) == Apply(st(n), run(n))
  }

  /** The Instance is still there after n steps. */
  ghost predicate Stays(st: nat -> World, n: nat)
  {
    !st(n).instance.Gone?
  }

  lemma NextIsAhead(st: nat -> World, run: nat -> Action, u: World, n: nat)
    requires Follows(st, run, n) && Ahead(st(n), u) && Stays(st, n + 1)
    ensures Ahead(st(n + 1), u)
  {
    StaysAhead(u, st(n), run(n));
  }

  lemma {:induction false} UntilThen(st: nat -> World, run: nat -> Action, u: World, n: nat, m: nat)
    requires (forall i: nat :: Follows(st, run, i)) && Ahead(st(n), u) && n <= m
    requires forall k: nat :: Stays(st, k)
    ensures Ahead(st(m), u)
    decreases m - n
  {
    if n < m {
      assert Stays(st, n + 1);
      NextIsAhead(st, run, u, n);
      UntilThen(st, run, u, n + 1, m);
    }
  }

  /** From a on, the provider has got nearer to its duty with every step. */
  ghost predicate Nearer(v: World, start: World, u: World, stepped: bool)
  {
    && Ahead(v, u)
    && (Lower(Level(v), Level(u)) || (Rank(v) <= Rank(start) && (stepped ==> Rank(v) < Rank(start))))
  }

  lemma StepIsNearer(v: World, start: World, u: World, stepped: bool, a: Action)
    requires Nearer(v, start, u, stepped) && Duty(u).Step? && !a.Crash? && !Apply(v, a).instance.Gone?
    ensures Nearer(Apply(v, a), start, u, stepped || a.Step?)
  {
    StaysAhead(u, v, a);
    if !Lower(Level(Apply(v, a)), Level(u)) {
      if a.Step? {
        ProviderRanks(v);
      }
    }
  }

  ghost predicate Stepped(run: nat -> Action, a: nat, k: nat)
  {
    exists s: nat :: a <= s < k && run(s).Step?
  }

  lemma NextIsNearer(st: nat -> World, run: nat -> Action, start: World, u: World, k: nat, stepped: bool)
    requires Follows(st, run, k) && Nearer(st(k), start, u, stepped) && Duty(u).Step? && !run(k).Crash? && Stays(st, k + 1)
    ensures Nearer(st(k + 1), start, u, stepped || run(k).Step?)
  {
    StepIsNearer(st(k), start, u, stepped, run(k));
  }

  lemma {:induction false} AlongPass(st: nat -> World, run: nat -> Action, start: World, u: World, k: nat, b: nat, stepped: bool)
    requires (forall i: nat :: Follows(st, run, i)) && Nearer(st(k), start, u, stepped) && Duty(u).Step? && k <= b
    requires forall j: nat :: k <= j < b ==> !run(j).Crash?
    requires forall j: nat :: Stays(st, j)
    ensures Nearer(st(b), start, u, stepped || Stepped(run, k, b))
    decreases b - k
  {
    if k < b {
      assert Stays(st, k + 1);
      NextIsNearer(st, run, start, u, k, stepped);
      assert Stepped(run, k, b) <==> run(k).Step? || Stepped(run, k + 1, b);
      AlongPass(st, run, start, u, k + 1, b, stepped || run(k).Step?);
    }
  }

  /** A completed pass does the provider's duty. */
  lemma PassGetsOn(st: nat -> World, run: nat -> Action, u: World, a: nat, b: nat)
    requires (forall i: nat :: Follows(st, run, i)) && Ahead(st(a), u) && Duty(u).Step? && Completes(st, run, a, b)
    requires forall j: nat :: Stays(st, j)
    ensures Ahead(st(b), u) && Lower(Level(st(b)), Level(u))
  {
    var start := st(a);
    UntilThen(st, run, u, a, b);
    if SamePlace(start, u) {
      AlongPass(st, run, start, u, a, b, false);
      assert Stepped(run, a, b);
      BackIsNotNearer(st(b), start, u);
    } else {
      UntilThen(st, run, start, a, b);
    }
  }

  /** A provider at rest at the same place is as near as it was. */
  lemma BackIsNotNearer(v: World, start: World, u: World)
    requires SamePlace(start, u) && v.pass.Idle? && start.pass.Idle? && Nearer(v, start, u, true)
    ensures Lower(Level(v), Level(u))
  {
  }

  lemma {:induction false} FromHere(st: nat -> World, run: nat -> Action, n: nat)
    requires (forall i: nat :: Follows(st, run, i)) && Inv(st(n)) && st(n).instance.Deleted? && Fair(st, run)
    ensures exists k: nat :: st(k).instance.Gone?
    decreases Level(st(n)).0, Level(st(n)).1
  {
    if forall k: nat :: Stays(st, k) {
      DutyIsDone(st, run, n);
      var m: nat :| Ahead(st(m), st(n)) && Lower(Level(st(m)), Level(st(n)));
      FromHere(st, run, m);
    }
  }

  lemma DutyIsDone(st: nat -> World, run: nat -> Action, n: nat)
    requires (forall i: nat :: Follows(st, run, i)) && Inv(st(n)) && st(n).instance.Deleted? && Fair(st, run)
    requires forall k: nat :: Stays(st, k)
    ensures exists m: nat :: Ahead(st(m), st(n)) && Lower(Level(st(m)), Level(st(n)))
  {
    var u := st(n);
    if Duty(u).Step? {
      assert CompletesAfter(st, run, n);
      var a: nat, b: nat :| n <= a && Completes(st, run, a, b);
      UntilThen(st, run, u, n, a);
      PassGetsOn(st, run, u, a, b);
    } else {
      assert IsDuty(Duty(u)) && Again(run, Duty(u), n);
      var m: nat :| n <= m && run(m) == Duty(u);
      UntilThen(st, run, u, n, m);
      OtherDutyIsDone(st, run, u, m);
    }
  }

  lemma OtherDutyIsDone(st: nat -> World, run: nat -> Action, u: World, m: nat)
    requires Follows(st, run, m) && Ahead(st(m), u) && !Duty(u).Step? && run(m) == Duty(u) && Stays(st, m + 1)
    ensures Ahead(st(m + 1), u) && Lower(Level(st(m + 1)), Level(u))
  {
    var v := st(m);
    StaysAhead(u, v, run(m));
    if !Lower(Level(v), Level(u)) {
      OthersGetOn(v);
    }
    assert st(m + 1) == Apply(v, run(m));
  }

  /** The states of an infinite run. */
  ghost function Along(w: World, run: nat -> Action): nat -> World
  {
    (n: nat) => At(w, run, n)
  }

  lemma AlongFollows(w: World, run: nat -> Action)
    ensures forall n: nat :: Follows(Along(w, run), run, n)
  {
  }

  /** Main result. In every fair run a deleted Instance is let go, by a Cleanup
      pass that returned success. */
  lemma FairTeardownEnds(actions: seq<Action>, run: nat -> Action)
    requires Exec(FRESH, actions).instance.Deleted? && Fair(Along(Exec(FRESH, actions), run), run)
    ensures exists k: nat :: At(Exec(FRESH, actions), run, k).instance.Gone?
  {
    var w := Exec(FRESH, actions);
    RunKeeps(FRESH, actions);
    AlongFollows(w, run);
    FromHere(Along(w, run), run, 0);
    var k: nat :| Along(w, run)(k).instance.Gone?;
    assert At(w, run, k).instance.Gone?;
  }

  // ------------------------------------------------------ runs without a crash

  /** The provider steps again and again, and does not crash. */
  ghost predicate StepsOn(run: nat -> Action)
  {
    (forall n: nat :: !run(n).Crash?) && (forall n: nat :: Again(run, Step, n))
  }

  /** Steps a pass has left at most. */
  function PassLeft(p: Pass): nat
  {
    match p
    case Idle => 0
    case DeletingLog | Releasing => 1
    case CheckingRelease => 2
    case Scanning(k, _) => if k <= 10 then 11 - k else 1
    case DeletingCluster => 12
    case ReadingCluster => 13
    case ReadingLog => 14
  }

  lemma StepsDown(w: World, a: Action)
    requires !a.Crash?
    ensures !w.pass.Idle? && a.Step? ==> PassLeft(Apply(w, a).pass) < PassLeft(w.pass)
    ensures !a.Step? ==> Apply(w, a).pass == w.pass
  {
  }

  lemma PassGoesDown(st: nat -> World, run: nat -> Action, n: nat)
    requires Follows(st, run, n) && !run(n).Crash?
    ensures var p, q := st(n).pass, st(n + 1).pass;
      (!p.Idle? && run(n).Step? ==> PassLeft(q) < PassLeft(p)) && (!run(n).Step? ==> q == p)
  {
    StepsDown(st(n), run(n));
  }

  /** From n on, with the next step at m, the pass comes to rest. */
  lemma {:induction false} ComesToRest(st: nat -> World, run: nat -> Action, n: nat, m: nat) returns (b: nat)
    requires (forall i: nat :: Follows(st, run, i)) && StepsOn(run) && n <= m && run(m).Step?
    ensures n <= b && st(b).pass.Idle?
    decreases PassLeft(st(n).pass), m - n
  {
    if st(n).pass.Idle? {
      return n;
    }
    PassGoesDown(st, run, n);
    if run(n).Step? {
      var l := NextStep(run, n + 1);
      b := ComesToRest(st, run, n + 1, l);
    } else {
      b := ComesToRest(st, run, n + 1, m);
    }
  }

  lemma NextStep(run: nat -> Action, n: nat) returns (m: nat)
    requires StepsOn(run)
    ensures n <= m && run(m).Step?
  {
    assert Again(run, Step, n);
    m :| n <= m && run(m) == Step;
  }

  /** Without crashes, stepping is enough to complete passes: such runs are fair. */
  lemma SteppingCompletes(st: nat -> World, run: nat -> Action, n: nat)
    requires (forall i: nat :: Follows(st, run, i)) && StepsOn(run)
    ensures CompletesAfter(st, run, n)
  {
    var m := NextStep(run, n);
    var a := ComesToRest(st, run, n, m);
    var s := NextStep(run, a);
    m := NextStep(run, s + 1);
    var b := ComesToRest(st, run, s + 1, m);
    assert Completes(st, run, a, b);
  }

  lemma CrashFreeTeardownEnds(actions: seq<Action>, run: nat -> Action)
    requires Exec(FRESH, actions).instance.Deleted? && (forall n: nat :: !run(n).Crash?)
    requires forall a, n: nat :: IsDuty(a) ==> Again(run, a, n)
    ensures exists k: nat :: At(Exec(FRESH, actions), run, k).instance.Gone?
  {
    assert StepsOn(run);
    var w := Exec(FRESH, actions);
    AlongFollows(w, run);
    forall n: nat ensures CompletesAfter(Along(w, run), run, n) {
      SteppingCompletes(Along(w, run), run, n);
    }
    FairTeardownEnds(actions, run);
  }
}
