/** One uninterrupted pass of SyncTiDB over the stored objects that matter for
    session token signing, in its own write order. */
module SessionTokenStore {
  import opened Wrappers
  import opened SessionToken
  import opened SessionTokenRun

  /** The TiDB group as the pass builds it, before it is applied. */
  class GroupTemplate {
    var config: string

    constructor (userConfig: string)
      ensures config == userConfig
    {
      config := userConfig;
    }
  }

  method HasFeatureGate(gates: seq<Feature>, name: Feature) returns (has: bool)
    ensures has <==> name in gates
  {
    has := false;
    for i := 0 to |gates|
      invariant !has && name !in gates[..i]
    {
      if gates[i] == name {
        return true;
      }
    }
  }

  /** What a pass makes of an existing Cluster: TiProxy adds FeatureModification, and
      signing with the reference to its Secret once that gate is on the Cluster, the
      group and every instance and the Secret exists. Gates stay, and with signing
      the reference it came with. */
  ghost predicate MovesOn(was: Cluster, now: Cluster, tiproxy: bool, secret: bool, group: Option<Group>, tidbs: map<nat, Tidb>)
  {
    && (FeatureModification in now.gates <==> FeatureModification in was.gates || tiproxy)
    && (SessionTokenSigning in now.gates <==>
          || SessionTokenSigning in was.gates
          || (tiproxy && FeatureModification in was.gates && secret &&
              (group.Some? ==>
                 && FeatureModification in group.value.features
                 && forall i :: i in tidbs ==> FeatureModification in tidbs[i].features)))
    && (now.signingSecret <==>
          if SessionTokenSigning in was.gates then was.signingSecret else SessionTokenSigning in now.gates)
  }

  class Store {
    var tiproxy: bool
    var secret: bool
    var cluster: Option<Cluster>
    var group: Option<Group>
    var tidbs: map<nat, Tidb>

    /** The state of the run this store is in. */
    ghost var world: World

    ghost predicate Valid()
      reads this
    {
      && world.tiproxy == tiproxy && world.secret == secret && world.cluster == cluster
      && world.group == group && world.tidbs == tidbs
    }

    method ReadyForSessionTokenSigning() returns (ready: bool)
      ensures ready <==> Ready(secret, group, tidbs)
      ensures ready <==>
                && secret
                && (group.Some? ==>
                      && FeatureModification in group.value.features
                      && forall i :: i in tidbs ==> FeatureModification in tidbs[i].features)
    {
      if !secret {
        return false;
      }
      if group.None? {
        return true;
      }
      if FeatureModification !in group.value.features {
        return false;
      }
      var rest := tidbs.Keys;
      while rest != {}
        invariant rest <= tidbs.Keys
        invariant forall i :: i in tidbs && i !in rest ==> FeatureModification in tidbs[i].features
        decreases |rest|
      {
        var id :| id in rest;
        if FeatureModification !in tidbs[id].features {
          return false;
        }
        rest := rest - {id};
      }
      return true;
    }

    method ExistingClusterSessionTokenSigning(existing: Cluster, enabled: bool) returns (next: Cluster)
      ensures next == NextCluster(existing, enabled, Ready(secret, group, tidbs))
      ensures FeatureModification in next.gates <==> FeatureModification in existing.gates || enabled
      ensures SessionTokenSigning in next.gates <==>
                || SessionTokenSigning in existing.gates
                || (enabled && FeatureModification in existing.gates && Ready(secret, group, tidbs))
      ensures next.signingSecret <==>
                if SessionTokenSigning in existing.gates then existing.signingSecret else SessionTokenSigning in next.gates
    {
      var modification := HasFeatureGate(existing.gates, FeatureModification);
      var signing := HasFeatureGate(existing.gates, SessionTokenSigning);
      var gates := [];
      if modification || enabled {
        gates := gates + [FeatureModification];
      }
      if signing {
        gates := gates + [SessionTokenSigning];
        return Cluster(gates, existing.signingSecret);
      }
      if !enabled || !modification {
        return Cluster(gates, false);
      }
      var ready := ReadyForSessionTokenSigning();
      if !ready {
        return Cluster(gates, false);
      }
      return Cluster(gates + [SessionTokenSigning], true);
    }

    method AddTiDBGracefulWait(codec: Codec, template: GroupTemplate, applied: Cluster, hadSigning: bool)
      modifies template
      ensures template.config ==
              GroupConfig(codec, old(template.config), SessionTokenSigning in applied.gates, hadSigning, group)
      ensures template.config ==
              if SessionTokenSigning in applied.gates &&
                 (!hadSigning || group.None? || ConfigSets(codec, group.value.config, GRACEFUL_WAIT_KEY))
              then WithGracefulWait(codec, old(template.config)) else old(template.config)
    {
      var signing := HasFeatureGate(applied.gates, SessionTokenSigning);
      if !signing {
        return;
      }
      if hadSigning && group.Some? && !ConfigSets(codec, group.value.config, GRACEFUL_WAIT_KEY) {
        return;
      }
      template.config := WithGracefulWait(codec, template.config);
    }

    /** What the pass wants the Cluster to be, and whether TiDB signed before it. */
    method BuildCluster() returns (next: Cluster, had: bool)
      requires Valid()
      ensures next == Decided(world) && had == Signs(world)
    {
      had := false;
      next := NewCluster(tiproxy);
      if cluster.Some? {
        had := HasFeatureGate(cluster.value.gates, SessionTokenSigning);
        next := ExistingClusterSessionTokenSigning(cluster.value, tiproxy);
      }
    }

    /** The pass, write by write. Its result is the state five provider steps of
        the run reach, so every result about runs covers it. */
    method SyncTiDB(e: Env) returns (ghost steps: seq<Action>)
      requires Valid() && world.pass.Idle? && GatesInv(world)
      modifies this
      ensures Valid() && world.pass.Idle?
      ensures world == Exec(e, old(world), steps) && steps == seq(5, i => Provider)
      ensures tiproxy == old(tiproxy) && tidbs == old(tidbs)
      ensures cluster == Some(Decided(old(world)))
      ensures old(cluster).None? ==>
                cluster.value == if tiproxy then Cluster([FeatureModification, SessionTokenSigning], true) else Cluster([], false)
      ensures old(cluster).Some? ==> MovesOn(old(cluster).value, cluster.value, tiproxy, old(secret), old(group), tidbs)
      ensures secret <==> old(secret) || tiproxy || cluster.value.signingSecret
      ensures group.Some? && group.value.features == if old(group).Some? then old(group).value.features else {}
      ensures group.value.config ==
              if SessionTokenSigning in cluster.value.gates &&
                 (old(group).None? || ConfigSets(e.codec, old(group).value.config, GRACEFUL_WAIT_KEY)
                  || old(cluster).None? || SessionTokenSigning !in old(cluster).value.gates)
              then WithGracefulWait(e.codec, e.userConfig) else e.userConfig
    {
      var next, had := BuildCluster();
      ghost var reached;
      steps, reached := PassReaches(e, world);
      WriteAll(e, next, had);
      world := reached;
    }

    /** The pass's writes, in order: the Cluster, the signing Secret, the group. */
    method WriteAll(e: Env, next: Cluster, had: bool)
      modifies this`cluster, this`secret, this`group
      ensures cluster == Some(next) && secret == (old(secret) || tiproxy || next.signingSecret)
      ensures group == Some(Group(if old(group).Some? then old(group).value.features else {},
        GroupConfig(e.codec, e.userConfig, SessionTokenSigning in next.gates, had, old(group))))
    {
      cluster := Some(next);
      if tiproxy || next.signingSecret {
        secret := true;
      }
      var template := new GroupTemplate(e.userConfig);
      AddTiDBGracefulWait(e.codec, template, next, had);
      group := Some(Group(if group.Some? then group.value.features else {}, template.config));
    }
  }

  lemma PassReaches(e: Env, w: World) returns (steps: seq<Action>, v: World)
    requires w.pass.Idle? && GatesInv(w)
    ensures v == Exec(e, w, steps) && steps == seq(5, i => Provider)
    ensures v.pass.Idle? && v.tiproxy == w.tiproxy && v.tidbs == w.tidbs
    ensures v.cluster == Some(Decided(w)) && v.secret == (w.secret || w.tiproxy || Decided(w).signingSecret)
    ensures v.group == Some(Group(if w.group.Some? then w.group.value.features else {},
      GroupConfig(e.codec, e.userConfig, SessionTokenSigning in Decided(w).gates, Signs(w), w.group)))
  {
    FullPassOutcome(e, w);
    FullPassIsExec(e, w);
    steps, v := FULL_PASS, FullPass(e, w);
    assert FULL_PASS == seq(5, i => Provider);
  }
}
