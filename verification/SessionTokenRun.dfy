/** Runs of the session-token-signing rollout: provider passes that may stop
    after any step, the user's TiProxy toggles and TiDB Operator's own steps,
    interleaved in any order. A run is a sequence of actions; an action that is
    not enabled leaves the world as it is. */
module SessionTokenRun {
  import opened Wrappers
  import opened SessionToken

  datatype Env = Env(codec: Codec, userConfig: string)

  /** Where the provider's pass is, with what it has read so far. */
  datatype Pass =
    | Idle
    | Building(tiproxy: bool, hadSigning: bool)
    | Built(tiproxy: bool, hadSigning: bool, next: Cluster)
    | ClusterApplied(tiproxy: bool, hadSigning: bool, next: Cluster)
    | SecretsEnsured(tiproxy: bool, hadSigning: bool, next: Cluster)

  /** The stored objects and the pass in progress. The last four fields are
      history: the number of the current pass, whether the Cluster was created
      with signing, the passes that changed the pair (signing gate, group config)
      while the group existed, and whether the operator replaced an instance
      between a pass's Cluster write and its group write. */
  datatype World = World(
    tiproxy: bool,
    secret: bool,
    cluster: Option<Cluster>,
    group: Option<Group>,
    tidbs: map<nat, Tidb>,
    pass: Pass,
    passNo: nat,
    createdSigning: bool,
    changed: set<nat>,
    raced: bool)

  datatype Action =
    | Toggle(on: bool)
    | Provider
    | Crash
    | SyncGroupFeatures
    | SyncTidbFeature(id: nat)
    | Roll(id: nat)
    | CreateTidb(id: nat)
    | DeleteTidb(id: nat)

  function Fresh(tiproxy: bool): World
  {
    World(tiproxy, false, None, None, map[], Idle, 0, false, {}, false)
  }

  predicate Signs(w: World)
  {
    w.cluster.Some? && SessionTokenSigning in w.cluster.value.gates
  }

  /** The operator holds a group until its features match the Cluster. */
  predicate Released(w: World)
  {
    w.cluster.Some? && w.group.Some? && w.group.value.features == GateSet(w.cluster.value.gates)
  }

  /** What makes the operator replace a running TiDB: its signing feature or its config. */
  function Revision(features: set<Feature>, config: string): (bool, string)
  {
    (SessionTokenSigning in features, config)
  }

  /** A pass has turned signing on and has not yet written the group's config. */
  predicate Window(e: Env, w: World)
  {
    && (w.pass.ClusterApplied? || w.pass.SecretsEnsured?)
    && !w.pass.hadSigning
    && SessionTokenSigning in w.pass.next.gates
    && w.group.Some?
    && w.group.value.config != WithGracefulWait(e.codec, e.userConfig)
  }

  function ApplyCluster(w: World, next: Cluster): World
    requires w.pass.Built?
  {
    if w.cluster.Some? && !Admitted(w.cluster.value, next) then
      w.(pass := Idle)
    else
      var was := Signs(w);
      var now := SessionTokenSigning in next.gates;
      w.(cluster := Some(next),
         pass := ClusterApplied(w.pass.tiproxy, w.pass.hadSigning, next),
         createdSigning := if w.cluster.None? then now else w.createdSigning,
         changed := if w.group.Some? && was != now then w.changed + {w.passNo} else w.changed)
  }

  function ApplyGroup(e: Env, w: World): World
    requires w.pass.SecretsEnsured?
  {
    var cfg := GroupConfig(e.codec, e.userConfig, SessionTokenSigning in w.pass.next.gates, w.pass.hadSigning, w.group);
    w.(group := Some(Group(if w.group.Some? then w.group.value.features else {}, cfg)),
       pass := Idle,
       changed := if w.group.Some? && w.group.value.config != cfg then w.changed + {w.passNo} else w.changed)
  }

  /** One step of the pass SyncTiDB makes: read the gate, decide, write the
      Cluster, create the signing Secret, write the TiDB group. */
  function ProviderStep(e: Env, w: World): World
  {
    match w.pass
    case Idle => w.(pass := Building(w.tiproxy, Signs(w)), passNo := w.passNo + 1)
    case Building(tiproxy, had) =>
      var next := if w.cluster.None? then NewCluster(tiproxy)
                  else NextCluster(w.cluster.value, tiproxy, Ready(w.secret, w.group, w.tidbs));
      w.(pass := Built(tiproxy, had, next))
    case Built(_, _, next) => ApplyCluster(w, next)
    case ClusterApplied(tiproxy, had, next) =>
      w.(secret := w.secret || tiproxy || next.signingSecret, pass := SecretsEnsured(tiproxy, had, next))
    case SecretsEnsured(_, _, _) => ApplyGroup(e, w)
  }

  function Replace(w: World, id: nat, rolls: nat): World
    requires w.group.Some?
  {
    w.(tidbs := w.tidbs[id := Tidb(w.group.value.features, w.group.value.config, rolls)])
  }

  predicate RollEnabled(w: World, id: nat)
  {
    && Released(w) && id in w.tidbs
    && Revision(w.tidbs[id].features, w.tidbs[id].config) != Revision(w.group.value.features, w.group.value.config)
  }

  function Apply(e: Env, w: World, a: Action): World
  {
    match a
    case Toggle(on) => w.(tiproxy := on)
    case Provider => ProviderStep(e, w)
    case Crash => w.(pass := Idle)
    case SyncGroupFeatures =>
      if w.cluster.Some? && w.group.Some?
      then w.(group := Some(w.group.value.(features := GateSet(w.cluster.value.gates))))
      else w
    case SyncTidbFeature(id) =>
      if w.group.Some? && FeatureModification in w.group.value.features && id in w.tidbs
      then w.(tidbs := w.tidbs[id := w.tidbs[id].(features := w.tidbs[id].features + {FeatureModification})])
      else w
    case Roll(id) =>
      if RollEnabled(w, id)
      then Replace(w, id, w.tidbs[id].rolls + 1).(raced := w.raced || Window(e, w))
      else w
    case CreateTidb(id) =>
      if Released(w) && id !in w.tidbs then Replace(w, id, 0) else w
    case DeleteTidb(id) => w.(tidbs := w.tidbs - {id})
  }

  function Exec(e: Env, w: World, actions: seq<Action>): World
    decreases |actions|
  {
    if actions == [] then w else Exec(e, Apply(e, w, actions[0]), actions[1..])
  }

  // ---------------------------------------------------------------- the gates

  /** The gates' part of the invariant: features only flow downwards, and a
      Cluster that signs has every TiDB instance carrying FeatureModification. */
  ghost predicate GatesInv(w: World)
  {
    && (Signs(w) ==> FeatureModification in w.cluster.value.gates)
    && (w.group.Some? ==> w.cluster.Some? && w.group.value.features <= GateSet(w.cluster.value.gates))
    && (w.tidbs != map[] ==> w.group.Some?)
    && (forall i :: i in w.tidbs ==> w.tidbs[i].features <= w.group.value.features)
    && (Signs(w) ==> forall i :: i in w.tidbs ==> FeatureModification in w.tidbs[i].features)
    && (Signs(w) && !w.createdSigning ==> w.secret)
    && (w.createdSigning ==> Signs(w))
    && (w.cluster.Some? ==> Matched(w.cluster.value))
    && PassInv(w)
  }

  const SIGNING: Cluster := Cluster([FeatureModification, SessionTokenSigning], true)
  const PLAIN_CLUSTER: Cluster := Cluster([], false)

  /** What the pass in progress has read still holds when it writes. */
  ghost predicate PassInv(w: World)
  {
    match w.pass
    case Idle => true
    case Building(_, had) => had == Signs(w)
    case Built(tiproxy, had, next) =>
      && had == Signs(w) && Matched(next)
      && (w.cluster.None? ==> next == if tiproxy then SIGNING else PLAIN_CLUSTER)
      && (SessionTokenSigning in next.gates ==> FeatureModification in next.gates)
      && (w.cluster.Some? ==>
            && Admitted(w.cluster.value, next)
            && GateSet(w.cluster.value.gates) <= GateSet(next.gates)
            && (SessionTokenSigning in next.gates && !Signs(w) ==>
                  && w.secret && FeatureModification in w.cluster.value.gates
                  && forall i :: i in w.tidbs ==> FeatureModification in w.tidbs[i].features))
    case ClusterApplied(_, _, next) => w.cluster == Some(next)
    case SecretsEnsured(_, _, next) => w.cluster == Some(next)
  }

  lemma GateSetMember(gates: seq<Feature>, f: Feature)
    ensures f in GateSet(gates) <==> f in gates
  {
  }

  lemma GatesStepBuilding(e: Env, w: World)
    requires GatesInv(w) && w.pass.Building?
    ensures GatesInv(ProviderStep(e, w))
  {
    if w.cluster.Some? {
      NextClusterIsAdmitted(w.cluster.value, w.pass.tiproxy, Ready(w.secret, w.group, w.tidbs));
      NextClusterKeepsReference(w.cluster.value, w.pass.tiproxy, Ready(w.secret, w.group, w.tidbs));
    }
  }

  lemma GatesStepBuilt(e: Env, w: World)
    requires GatesInv(w) && w.pass.Built?
    ensures GatesInv(ProviderStep(e, w))
  {
    GateSetMember(w.pass.next.gates, FeatureModification);
    GateSetMember(w.pass.next.gates, SessionTokenSigning);
    assert w.cluster.Some? ==> Admitted(w.cluster.value, w.pass.next);
  }

  lemma GatesStepProvider(e: Env, w: World)
    requires GatesInv(w)
    ensures GatesInv(ProviderStep(e, w))
  {
    if w.pass.Building? {
      GatesStepBuilding(e, w);
    } else if w.pass.Built? {
      GatesStepBuilt(e, w);
    }
  }

  lemma GatesStep(e: Env, w: World, a: Action)
    requires GatesInv(w)
    ensures GatesInv(Apply(e, w, a))
  {
    match a
    case Provider => GatesStepProvider(e, w);
    case CreateTidb(id) =>
      if w.cluster.Some? { GateSetMember(w.cluster.value.gates, FeatureModification); }
    case Roll(id) =>
      if w.cluster.Some? { GateSetMember(w.cluster.value.gates, FeatureModification); }
    case _ =>
  }

  /** Both gates only ever grow, and no write a pass attempts is refused by the
      Cluster CRD's freeze. */
  lemma GatesNeverDropped(e: Env, w: World, a: Action)
    requires GatesInv(w)
    ensures w.cluster.Some? ==>
              && Apply(e, w, a).cluster.Some?
              && GateSet(w.cluster.value.gates) <= GateSet(Apply(e, w, a).cluster.value.gates)
    ensures a.Provider? && w.pass.Built? ==> Apply(e, w, a).cluster == Some(w.pass.next)
  {
  }

  lemma {:induction false} GatesRun(e: Env, w: World, actions: seq<Action>)
    requires GatesInv(w)
    ensures GatesInv(Exec(e, w, actions))
    ensures w.cluster.Some? ==>
              && Exec(e, w, actions).cluster.Some?
              && GateSet(w.cluster.value.gates) <= GateSet(Exec(e, w, actions).cluster.value.gates)
    decreases |actions|
  {
    if actions != [] {
      GatesStep(e, w, actions[0]);
      GatesNeverDropped(e, w, actions[0]);
      GatesRun(e, Apply(e, w, actions[0]), actions[1..]);
    }
  }

  /** Main result on the gates. In every run from a fresh Instance, whatever is
      interleaved and wherever a pass is cut off: a Cluster that signs has every
      TiDB instance carrying FeatureModification, so the operator never has to
      add the signing volume in place; and if the Cluster was created without
      signing, the signing Secret exists. */
  lemma SigningIsSafe(e: Env, tiproxy: bool, actions: seq<Action>)
    ensures var w := Exec(e, Fresh(tiproxy), actions);
      Signs(w) ==>
        && FeatureModification in w.cluster.value.gates
        && (forall i :: i in w.tidbs ==> FeatureModification in w.tidbs[i].features)
        && (!w.createdSigning ==> w.secret)
  {
    GatesRun(e, Fresh(tiproxy), actions);
  }

  /** In every run from a fresh Instance the Cluster names the signing Secret if and
      only if it signs. */
  lemma SigningClusterNamesItsSecret(e: Env, tiproxy: bool, actions: seq<Action>)
    ensures var w := Exec(e, Fresh(tiproxy), actions);
      w.cluster.Some? ==> (w.cluster.value.signingSecret <==> SessionTokenSigning in w.cluster.value.gates)
  {
    GatesRun(e, Fresh(tiproxy), actions);
  }

  /** From any state a run can reach, whatever follows, a Cluster that signs goes on
      signing with the reference it has. */
  lemma ReferenceIsKept(e: Env, w: World, actions: seq<Action>)
    requires GatesInv(w) && Signs(w)
    ensures Signs(Exec(e, w, actions)) && Exec(e, w, actions).cluster.value.signingSecret == w.cluster.value.signingSecret
  {
    GatesRun(e, w, actions);
    GateSetMember(w.cluster.value.gates, SessionTokenSigning);
    GateSetMember(Exec(e, w, actions).cluster.value.gates, SessionTokenSigning);
  }

  /** The step that creates the Cluster gives it both gates and the reference at once
      if its pass found TiProxy on, and none of them otherwise. */
  lemma CreatedAtOnce(e: Env, w: World, a: Action)
    requires GatesInv(w) && w.cluster.None? && Apply(e, w, a).cluster.Some?
    ensures a.Provider? && w.pass.Built?
    ensures Apply(e, w, a).cluster.value ==
            if w.pass.tiproxy then Cluster([FeatureModification, SessionTokenSigning], true) else Cluster([], false)
  {
  }

  // ------------------------------------------------------- one config change

  /** The pass in progress turned signing on: it read a Cluster without it and
      has applied one with it. */
  predicate TurningOn(w: World)
  {
    && (w.pass.ClusterApplied? || w.pass.SecretsEnsured?)
    && !w.pass.hadSigning && SessionTokenSigning in w.pass.next.gates
  }

  ghost predicate ConfigInv(e: Env, w: World)
  {
    && (w.group.Some? ==>
          || w.group.value.config == e.userConfig
          || w.group.value.config == WithGracefulWait(e.codec, e.userConfig))
    && (forall p :: p in w.changed ==> p <= w.passNo)
    && (!Signs(w) ==> w.changed == {} && (w.group.Some? ==> w.group.value.config == e.userConfig))
    && (TurningOn(w) ==> w.changed <= {w.passNo} && (w.group.Some? ==> w.group.value.config == e.userConfig))
    && (Signs(w) ==> exists p :: w.changed <= {p})
    && (w.pass.ClusterApplied? || w.pass.SecretsEnsured? ==> (w.pass.hadSigning ==> SessionTokenSigning in w.pass.next.gates))
  }

  lemma ConfigStep(e: Env, w: World, a: Action)
    requires RoundTrips(e.codec) && GatesInv(w) && ConfigInv(e, w)
    ensures ConfigInv(e, Apply(e, w, a))
  {
    if a.Provider? && w.pass.Built? {
      GateSetMember(w.pass.next.gates, SessionTokenSigning);
      if !Signs(w) {
        assert Apply(e, w, a).changed <= {w.passNo};
      }
    }
    if a.Provider? && w.pass.SecretsEnsured? {
      ConfigStepGroup(e, w);
    }
  }

  lemma ConfigStepGroup(e: Env, w: World)
    requires RoundTrips(e.codec) && GatesInv(w) && ConfigInv(e, w) && w.pass.SecretsEnsured?
    ensures ConfigInv(e, ApplyGroup(e, w))
    ensures !TurningOn(w) && w.group.Some? ==> ApplyGroup(e, w).group == w.group
    ensures TurningOn(w) && w.group.Some? ==>
              ApplyGroup(e, w).group.value.config == WithGracefulWait(e.codec, e.userConfig)
  {
    if w.group.Some? {
      SigningGroupConfigIsStable(e.codec, e.userConfig, w.group.value);
    }
    if TurningOn(w) {
      assert ApplyGroup(e, w).changed <= {w.passNo};
    }
  }

  lemma {:induction false} ConfigRun(e: Env, w: World, actions: seq<Action>)
    requires RoundTrips(e.codec) && GatesInv(w) && ConfigInv(e, w)
    ensures GatesInv(Exec(e, w, actions)) && ConfigInv(e, Exec(e, w, actions))
    decreases |actions|
  {
    if actions != [] {
      GatesStep(e, w, actions[0]);
      ConfigStep(e, w, actions[0]);
      ConfigRun(e, Apply(e, w, actions[0]), actions[1..]);
    }
  }

  /** Main result on the config edit. In every run from a fresh Instance with a
      fixed user config, parsable or not, the pair (signing gate, group config)
      changes in at most one provider pass once the TiDB group exists. */
  lemma PairChangesInAtMostOnePass(e: Env, tiproxy: bool, actions: seq<Action>)
    requires RoundTrips(e.codec)
    ensures |Exec(e, Fresh(tiproxy), actions).changed| <= 1
  {
    ConfigRun(e, Fresh(tiproxy), actions);
    var w := Exec(e, Fresh(tiproxy), actions);
    if Signs(w) {
      var p :| w.changed <= {p};
      SubsetOfSingleton(w.changed, p);
    }
  }

  lemma SubsetOfSingleton(s: set<nat>, p: nat)
    requires s <= {p}
    ensures |s| <= 1
  {
    if p in s { assert s == {p}; } else { assert s == {}; }
  }

  // ------------------------------------------------------------ TiDB restarts

  ghost predicate RollInv(e: Env, w: World)
  {
    && (!Signs(w) ==> forall i :: i in w.tidbs ==>
          w.tidbs[i].rolls == 0 && Revision(w.tidbs[i].features, w.tidbs[i].config) == (false, e.userConfig))
    && (Window(e, w) && !w.raced ==> forall i :: i in w.tidbs ==> w.tidbs[i].rolls == 0)
    && (!w.raced ==> forall i :: i in w.tidbs && w.tidbs[i].rolls > 0 ==>
          && w.tidbs[i].rolls == 1 && w.group.Some?
          && Revision(w.tidbs[i].features, w.tidbs[i].config) == (true, w.group.value.config))
  }

  lemma RollStepProvider(e: Env, w: World)
    requires RoundTrips(e.codec) && GatesInv(w) && ConfigInv(e, w) && RollInv(e, w)
    ensures RollInv(e, ProviderStep(e, w))
  {
    if w.pass.SecretsEnsured? {
      ConfigStepGroup(e, w);
      GateSetMember(w.pass.next.gates, SessionTokenSigning);
    }
    if w.pass.Built? {
      GateSetMember(w.pass.next.gates, SessionTokenSigning);
    }
  }

  lemma RollStepRoll(e: Env, w: World, id: nat)
    requires RoundTrips(e.codec) && GatesInv(w) && ConfigInv(e, w) && RollInv(e, w)
    ensures RollInv(e, Apply(e, w, Roll(id)))
  {
    if w.cluster.Some? { GateSetMember(w.cluster.value.gates, SessionTokenSigning); }
  }

  lemma RollStepCreate(e: Env, w: World, id: nat)
    requires RoundTrips(e.codec) && GatesInv(w) && ConfigInv(e, w) && RollInv(e, w)
    ensures RollInv(e, Apply(e, w, CreateTidb(id)))
  {
    if w.cluster.Some? { GateSetMember(w.cluster.value.gates, SessionTokenSigning); }
  }

  lemma RollStep(e: Env, w: World, a: Action)
    requires RoundTrips(e.codec) && GatesInv(w) && ConfigInv(e, w) && RollInv(e, w)
    ensures RollInv(e, Apply(e, w, a))
  {
    match a
    case Provider => RollStepProvider(e, w);
    case Roll(id) => RollStepRoll(e, w, id);
    case CreateTidb(id) => RollStepCreate(e, w, id);
    case _ =>
  }

  lemma {:induction false} RollRun(e: Env, w: World, actions: seq<Action>)
    requires RoundTrips(e.codec) && GatesInv(w) && ConfigInv(e, w) && RollInv(e, w)
    ensures var v := Exec(e, w, actions); GatesInv(v) && ConfigInv(e, v) && RollInv(e, v)
    decreases |actions|
  {
    if actions != [] {
      GatesStep(e, w, actions[0]);
      ConfigStep(e, w, actions[0]);
      RollStep(e, w, actions[0]);
      RollRun(e, Apply(e, w, actions[0]), actions[1..]);
    }
  }

  /** Main result on restarts: in every run in which the operator replaces no
      instance between a pass's Cluster write and its group write, enabling,
      disabling and re-enabling TiProxy restarts each TiDB instance at most once. */
  lemma TidbRollsAtMostOnce(e: Env, tiproxy: bool, actions: seq<Action>)
    requires RoundTrips(e.codec)
    ensures var w := Exec(e, Fresh(tiproxy), actions);
      !w.raced ==> forall i :: i in w.tidbs ==> w.tidbs[i].rolls <= 1
  {
    RollRun(e, Fresh(tiproxy), actions);
  }

  // ----------------------------------------------------- where the limits lie

  lemma {:induction false} ExecAppend(e: Env, w: World, first: seq<Action>, second: seq<Action>)
    ensures Exec(e, w, first + second) == Exec(e, Exec(e, w, first), second)
    decreases |first|
  {
    if first == [] {
      assert first + second == second;
    } else {
      assert (first + second)[1..] == first[1..] + second;
      ExecAppend(e, Apply(e, w, first[0]), first[1..], second);
    }
  }

  /** One uninterrupted pass. */
  const FULL_PASS: seq<Action> := [Provider, Provider, Provider, Provider, Provider]

  function FullPass(e: Env, w: World): World
  {
    ProviderStep(e, ProviderStep(e, ProviderStep(e, ProviderStep(e, ProviderStep(e, w)))))
  }

  lemma FullPassIsExec(e: Env, w: World)
    ensures Exec(e, w, FULL_PASS) == FullPass(e, w)
  {
    var w1 := ProviderStep(e, w);
    var w2 := ProviderStep(e, w1);
    assert Exec(e, w, FULL_PASS) == Exec(e, w1, FULL_PASS[1..]);
    assert FULL_PASS[1..] == [Provider, Provider, Provider, Provider];
    assert FULL_PASS[1..][1..] == [Provider, Provider, Provider];
    assert Exec(e, w1, FULL_PASS[1..]) == Exec(e, w2, [Provider, Provider, Provider]);
    assert [Provider, Provider, Provider][1..] == [Provider, Provider];
    assert [Provider, Provider][1..] == [Provider];
  }

  /** The Cluster a pass over w applies. */
  function Decided(w: World): Cluster
  {
    if w.cluster.None? then NewCluster(w.tiproxy)
    else NextCluster(w.cluster.value, w.tiproxy, Ready(w.secret, w.group, w.tidbs))
  }

  /** What an uninterrupted pass leaves in the store: none of its writes is refused. */
  lemma FullPassOutcome(e: Env, w: World)
    requires w.pass.Idle? && (Signs(w) ==> FeatureModification in w.cluster.value.gates)
    ensures var v := FullPass(e, w); var next := Decided(w);
      && v.pass.Idle? && v.tiproxy == w.tiproxy && v.tidbs == w.tidbs
      && v.cluster == Some(next)
      && v.secret == (w.secret || w.tiproxy || next.signingSecret)
      && v.group == Some(Group(if w.group.Some? then w.group.value.features else {},
                               GroupConfig(e.codec, e.userConfig, SessionTokenSigning in next.gates, Signs(w), w.group)))
  {
    var next, had := Decided(w), Signs(w);
    if w.cluster.Some? {
      NextClusterIsAdmitted(w.cluster.value, w.tiproxy, Ready(w.secret, w.group, w.tidbs));
    }
    var w2 := ProviderStep(e, ProviderStep(e, w));
    assert w2 == w.(pass := Built(w.tiproxy, had, next), passNo := w.passNo + 1);
    var w4 := ProviderStep(e, ProviderStep(e, w2));
    assert w4.pass == SecretsEnsured(w.tiproxy, had, next) && w4.cluster == Some(next) && w4.group == w.group;
    assert w4.secret == (w.secret || w.tiproxy || next.signingSecret) && w4.tidbs == w.tidbs && w4.tiproxy == w.tiproxy;
    assert FullPass(e, w) == ApplyGroup(e, w4);
  }

  /** The Cluster signs and the pass in progress, if any, is not the one that made it sign. */
  ghost predicate PastTurnOn(w: World)
  {
    && GatesInv(w) && Signs(w) && w.group.Some?
    && (w.pass.Idle? || w.pass.hadSigning)
    && (w.pass.ClusterApplied? || w.pass.SecretsEnsured? ==> SessionTokenSigning in w.pass.next.gates)
  }

  lemma PastTurnOnStep(e: Env, w: World, a: Action)
    requires PastTurnOn(w)
    ensures PastTurnOn(Apply(e, w, a))
    ensures Apply(e, w, a).group.value.config == w.group.value.config
            || (a.Provider? && w.pass.SecretsEnsured? && Apply(e, w, a).group.value.config ==
                  GroupConfig(e.codec, e.userConfig, true, true, w.group))
  {
    GatesStep(e, w, a);
    GatesNeverDropped(e, w, a);
    GateSetMember(w.cluster.value.gates, SessionTokenSigning);
    GateSetMember(Apply(e, w, a).cluster.value.gates, SessionTokenSigning);
  }

  /** A pass cut off between its two writes loses the wait for good: however the
      run goes on, the group keeps the user's config. */
  lemma {:induction false} CrashLosesTheWait(e: Env, w: World, actions: seq<Action>)
    requires PastTurnOn(w) && w.group.value.config == e.userConfig
    requires !ConfigSets(e.codec, e.userConfig, GRACEFUL_WAIT_KEY)
    ensures var v := Exec(e, w, actions); v.group.Some? && v.group.value.config == e.userConfig
    decreases |actions|
  {
    if actions != [] {
      PastTurnOnStep(e, w, actions[0]);
      CrashLosesTheWait(e, Apply(e, w, actions[0]), actions[1..]);
    }
  }

  /** A pass that turned signing on and is cut off before its group write loses
      the wait; had it gone on to the write, every continuation would keep it. */
  lemma CutOffInWindow(e: Env, w: World, actions: seq<Action>)
    requires RoundTrips(e.codec) && GatesInv(w) && ConfigInv(e, w) && Window(e, w)
    requires !ConfigSets(e.codec, e.userConfig, GRACEFUL_WAIT_KEY)
    ensures var v := Exec(e, Apply(e, w, Crash), actions); v.group.Some? && v.group.value.config == e.userConfig
    ensures var u := ProviderStep(e, w);
      var v := Exec(e, if w.pass.SecretsEnsured? then u else ProviderStep(e, u), actions);
      v.group.Some? && v.group.value.config == WithGracefulWait(e.codec, e.userConfig)
  {
    GatesStep(e, w, Crash);
    CrashLosesTheWait(e, Apply(e, w, Crash), actions);
    GatesStep(e, w, Provider);
    ConfigStep(e, w, Provider);
    if w.pass.SecretsEnsured? {
      WritesTheWait(e, w, actions);
    } else {
      WritesTheWait(e, ProviderStep(e, w), actions);
    }
  }

  lemma WritesTheWait(e: Env, w: World, actions: seq<Action>)
    requires RoundTrips(e.codec) && GatesInv(w) && ConfigInv(e, w) && Window(e, w) && w.pass.SecretsEnsured?
    ensures var v := Exec(e, ProviderStep(e, w), actions);
      v.group.Some? && v.group.value.config == WithGracefulWait(e.codec, e.userConfig)
  {
    GatesStep(e, w, Provider);
    ConfigStepGroup(e, w);
    WaitIsKept(e, ProviderStep(e, w), actions);
  }

  /** Once the group holds the wait while the Cluster signs, it holds it in every
      continuation: with CrashLosesTheWait, the wait is there for good exactly when
      the pass that turned signing on reached its group write. */
  lemma {:induction false} WaitIsKept(e: Env, w: World, actions: seq<Action>)
    requires RoundTrips(e.codec) && PastTurnOn(w)
    requires w.group.value.config == WithGracefulWait(e.codec, e.userConfig)
    ensures var v := Exec(e, w, actions);
      v.group.Some? && v.group.value.config == WithGracefulWait(e.codec, e.userConfig)
    decreases |actions|
  {
    if actions != [] {
      PastTurnOnStep(e, w, actions[0]);
      SigningGroupConfigIsStable(e.codec, e.userConfig, w.group.value);
      WaitIsKept(e, Apply(e, w, actions[0]), actions[1..]);
    }
  }

  /** The condition of TidbRollsAtMostOnce is sharp: any instance the operator
      replaces between the two writes is due for a second replacement as soon as
      the pass completes. */
  lemma RollInWindowRollsTwice(e: Env, w: World, id: nat)
    requires RoundTrips(e.codec) && GatesInv(w) && ConfigInv(e, w)
    requires Window(e, w) && RollEnabled(w, id)
    ensures var finish := if w.pass.ClusterApplied? then [Provider, Provider] else [Provider];
      var v := Exec(e, w, [Roll(id)] + finish + [Roll(id)]);
      id in v.tidbs && v.tidbs[id].rolls == w.tidbs[id].rolls + 2
  {
    var finish := if w.pass.ClusterApplied? then [Provider, Provider] else [Provider];
    var w1 := Apply(e, w, Roll(id));
    var s := if w1.pass.ClusterApplied? then ProviderStep(e, w1) else w1;
    var w2 := ApplyGroup(e, s);
    GateSetMember(w.cluster.value.gates, SessionTokenSigning);
    GatesStep(e, w, Roll(id));
    ConfigStep(e, w, Roll(id));
    if w1.pass.ClusterApplied? {
      GatesStepProvider(e, w1);
      ConfigStep(e, w1, Provider);
    }
    ConfigStepGroup(e, s);
    assert RollEnabled(w2, id);
    assert ([Roll(id)] + finish + [Roll(id)])[1..] == finish + [Roll(id)];
    ExecAppend(e, w1, finish, [Roll(id)]);
    if w.pass.ClusterApplied? {
      assert finish[1..] == [Provider];
      assert Exec(e, w1, finish) == Exec(e, s, [Provider]);
    }
    assert Exec(e, w1, finish) == w2;
    assert Exec(e, w2, [Roll(id)]) == Apply(e, w2, Roll(id));
  }

  // ------------------------------------------------- the run that rolls twice

  const PLAIN := ""
  const WAITING := "w"

  /** A codec that knows the empty config and the config with just the wait. */
  const TINY_CODEC: Codec := Codec(
    t => if t == PLAIN then Some(map[])
         else if t == WAITING then Some(map[GRACEFUL_WAIT_KEY := Number(GRACEFUL_WAIT_SECONDS)])
         else None,
    m => if m == map[GRACEFUL_WAIT_KEY := Number(GRACEFUL_WAIT_SECONDS)] then Some(WAITING) else None)

  const TINY_ENV: Env := Env(TINY_CODEC, PLAIN)

  lemma TinyCodec()
    ensures RoundTrips(TINY_CODEC)
    ensures WithGracefulWait(TINY_CODEC, PLAIN) == WAITING
  {
    var empty: map<string, TomlValue> := map[];
    assert empty[GRACEFUL_WAIT_KEY := Number(GRACEFUL_WAIT_SECONDS)] == map[GRACEFUL_WAIT_KEY := Number(GRACEFUL_WAIT_SECONDS)];
  }

  /** A TiDB running without TiProxy: one instance, after one pass. */
  const DEPLOYED: World :=
    World(false, false, Some(Cluster([], false)), Some(Group({}, PLAIN)), map[0 := Tidb({}, PLAIN, 0)], Idle, 1, false, {}, false)

  /** The same cluster once TiProxy is on and FeatureModification has reached the instance. */
  const PREPARED: World :=
    World(true, true, Some(Cluster([FeatureModification], false)), Some(Group({FeatureModification}, PLAIN)),
          map[0 := Tidb({FeatureModification}, PLAIN, 0)], Idle, 2, false, {}, false)

  /** The pass has turned signing on and the operator has synced the group. */
  const EXPOSED: World :=
    World(true, true, Some(SIGNING), Some(Group({FeatureModification, SessionTokenSigning}, PLAIN)),
          map[0 := Tidb({FeatureModification}, PLAIN, 0)], ClusterApplied(true, false, SIGNING), 3, false, {3}, false)

  const DEPLOY: seq<Action> := FULL_PASS + [CreateTidb(0)]
  const PREPARE: seq<Action> := [Toggle(true)] + (FULL_PASS + [SyncGroupFeatures, SyncTidbFeature(0)])
  const EXPOSE: seq<Action> := [Provider, Provider, Provider, SyncGroupFeatures]

  lemma DeployRun()
    ensures Exec(TINY_ENV, Fresh(false), DEPLOY) == DEPLOYED
  {
    TinyCodec();
    ExecAppend(TINY_ENV, Fresh(false), FULL_PASS, [CreateTidb(0)]);
    FullPassIsExec(TINY_ENV, Fresh(false));
    var w := FullPass(TINY_ENV, Fresh(false));
    assert w == World(false, false, Some(Cluster([], false)), Some(Group({}, PLAIN)), map[], Idle, 1, false, {}, false);
    assert GateSet([]) == {};
    assert Exec(TINY_ENV, w, [CreateTidb(0)]) == Apply(TINY_ENV, w, CreateTidb(0));
  }

  /** The first pass with TiProxy on adds FeatureModification and the Secret only. */
  const MODIFIABLE: World :=
    DEPLOYED.(tiproxy := true, secret := true, cluster := Some(Cluster([FeatureModification], false)), passNo := 2)

  lemma PreparePass()
    ensures FullPass(TINY_ENV, Apply(TINY_ENV, DEPLOYED, Toggle(true))) == MODIFIABLE
  {
    assert GateSet([FeatureModification]) == {FeatureModification} == GateSet([]) + {FeatureModification};
  }

  lemma PrepareSync()
    ensures Exec(TINY_ENV, MODIFIABLE, [SyncGroupFeatures, SyncTidbFeature(0)]) == PREPARED
  {
    assert GateSet([FeatureModification]) == {FeatureModification};
    assert [SyncGroupFeatures, SyncTidbFeature(0)][1..] == [SyncTidbFeature(0)];
    var u := Apply(TINY_ENV, MODIFIABLE, SyncGroupFeatures);
    assert u == MODIFIABLE.(group := PREPARED.group);
    var none: set<Feature> := {};
    assert none + {FeatureModification} == {FeatureModification};
    assert u.tidbs[0 := Tidb(none + {FeatureModification}, PLAIN, 0)] == PREPARED.tidbs;
    assert Apply(TINY_ENV, u, SyncTidbFeature(0)).tidbs == PREPARED.tidbs;
    assert Exec(TINY_ENV, u, [SyncTidbFeature(0)]) == PREPARED;
  }

  lemma PrepareRun()
    ensures Exec(TINY_ENV, DEPLOYED, PREPARE) == PREPARED
  {
    var w := Apply(TINY_ENV, DEPLOYED, Toggle(true));
    var rest := FULL_PASS + [SyncGroupFeatures, SyncTidbFeature(0)];
    assert PREPARE[1..] == rest;
    PreparePass();
    PrepareSync();
    FullPassIsExec(TINY_ENV, w);
    ExecAppend(TINY_ENV, w, FULL_PASS, [SyncGroupFeatures, SyncTidbFeature(0)]);
  }

  lemma ExposeRun()
    ensures Exec(TINY_ENV, PREPARED, EXPOSE) == EXPOSED
  {
    TinyCodec();
    var w1 := ProviderStep(TINY_ENV, PREPARED);
    var w2 := ProviderStep(TINY_ENV, w1);
    assert w2.pass.next == SIGNING;
    var w3 := ProviderStep(TINY_ENV, w2);
    assert EXPOSE[1..] == [Provider, Provider, SyncGroupFeatures];
    assert EXPOSE[1..][1..] == [Provider, SyncGroupFeatures];
    assert [Provider, SyncGroupFeatures][1..] == [SyncGroupFeatures];
    assert GateSet(SIGNING.gates) == {FeatureModification, SessionTokenSigning};
    assert w3.(group := EXPOSED.group) == EXPOSED;
    assert Exec(TINY_ENV, w3, [SyncGroupFeatures]) == EXPOSED;
  }

  /** "Enabling TiProxy never rolls TiDB twice" is false of every interleaving:
      this run from a fresh Instance replaces instance 0 twice. */
  lemma SomeRunRollsTwice() returns (actions: seq<Action>)
    ensures RoundTrips(TINY_CODEC)
    ensures var w := Exec(TINY_ENV, Fresh(false), actions); 0 in w.tidbs && w.tidbs[0].rolls == 2
  {
    TinyCodec();
    DeployRun();
    PrepareRun();
    ExposeRun();
    var before := DEPLOY + PREPARE + EXPOSE;
    ExecAppend(TINY_ENV, Fresh(false), DEPLOY + PREPARE, EXPOSE);
    ExecAppend(TINY_ENV, Fresh(false), DEPLOY, PREPARE);
    ConfigRun(TINY_ENV, Fresh(false), before);
    assert GateSet(SIGNING.gates) == {FeatureModification, SessionTokenSigning};
    var after := [Roll(0)] + [Provider, Provider] + [Roll(0)];
    RollInWindowRollsTwice(TINY_ENV, EXPOSED, 0);
    actions := before + after;
    ExecAppend(TINY_ENV, Fresh(false), before, after);
  }

  // --------------------------------------------------------------- completion

  function Settle(ids: seq<nat>): seq<Action>
  {
    if ids == [] then [] else [SyncTidbFeature(ids[0])] + Settle(ids[1..])
  }

  /** What the operator's feature syncs leave alone, and what they achieve. */
  lemma {:induction false} SettleSpreadsFeatures(e: Env, w: World, ids: seq<nat>)
    requires w.group.Some? && FeatureModification in w.group.value.features
    ensures var v := Exec(e, w, Settle(ids));
      && v == w.(tidbs := v.tidbs) && v.tidbs.Keys == w.tidbs.Keys
      && (forall i :: i in w.tidbs ==>
            (i in ids || FeatureModification in w.tidbs[i].features ==> FeatureModification in v.tidbs[i].features))
    decreases |ids|
  {
    if ids != [] {
      var w1 := Apply(e, w, SyncTidbFeature(ids[0]));
      assert Settle(ids)[1..] == Settle(ids[1..]);
      assert Exec(e, w, Settle(ids)) == Exec(e, w1, Settle(ids[1..]));
      SettleSpreadsFeatures(e, w1, ids[1..]);
    } else {
      assert Exec(e, w, Settle(ids)) == w;
    }
  }

  /** From any state a run can reach, with TiProxy on and no pass in progress, two
      passes with the operator's feature syncs in between turn signing on. */
  lemma TwoPassesTurnSigningOn(e: Env, w: World, ids: seq<nat>)
    requires GatesInv(w) && w.pass.Idle? && w.tiproxy
    requires forall i :: i in w.tidbs ==> i in ids
    ensures Signs(Exec(e, w, FULL_PASS + ([SyncGroupFeatures] + Settle(ids)) + FULL_PASS))
  {
    var first := FULL_PASS + ([SyncGroupFeatures] + Settle(ids));
    ExecAppend(e, w, first, FULL_PASS);
    ExecAppend(e, w, FULL_PASS, [SyncGroupFeatures] + Settle(ids));
    FullPassIsExec(e, w);
    GatesRun(e, w, FULL_PASS);
    var w1 := FullPass(e, w);
    FirstPassPrepares(e, w);
    GateSetMember(w1.cluster.value.gates, FeatureModification);
    var w2 := Apply(e, w1, SyncGroupFeatures);
    GatesStep(e, w1, SyncGroupFeatures);
    assert ([SyncGroupFeatures] + Settle(ids))[1..] == Settle(ids);
    SettleSpreadsFeatures(e, w2, ids);
    GatesRun(e, w2, Settle(ids));
    var w3 := Exec(e, w2, Settle(ids));
    FullPassIsExec(e, w3);
    SecondPassSigns(e, w3);
  }

  lemma FirstPassPrepares(e: Env, w: World)
    requires GatesInv(w) && w.pass.Idle? && w.tiproxy
    ensures var v := FullPass(e, w);
      && v.pass.Idle? && v.tiproxy && v.secret && v.group.Some? && v.tidbs == w.tidbs
      && v.cluster.Some? && FeatureModification in v.cluster.value.gates
  {
    if w.cluster.Some? {
      NextClusterIsAdmitted(w.cluster.value, true, Ready(w.secret, w.group, w.tidbs));
    }
  }

  lemma SecondPassSigns(e: Env, w: World)
    requires GatesInv(w) && w.pass.Idle? && w.tiproxy && w.secret
    requires w.cluster.Some? && FeatureModification in w.cluster.value.gates
    requires w.group.Some? && FeatureModification in w.group.value.features
    requires forall i :: i in w.tidbs ==> FeatureModification in w.tidbs[i].features
    ensures Signs(FullPass(e, w))
  {
    NextClusterIsAdmitted(w.cluster.value, true, true);
  }
}
