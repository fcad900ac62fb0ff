/** The decisions of session_token.go: which feature gates and signing Secret a
    pass puts on the Cluster, and when TiDB's graceful shutdown wait may join its
    config. They are pure; SessionTokenRun interleaves them with the operator and
    SessionTokenStore runs them as one pass over stored objects. */
module SessionToken {
  import opened Wrappers

  datatype Feature = FeatureModification | SessionTokenSigning

  /** A Cluster's gates and whether spec.security names the signing Secret. */
  datatype Cluster = Cluster(gates: seq<Feature>, signingSecret: bool)

  datatype Group = Group(features: set<Feature>, config: string)

  /** A TiDB instance; rolls is a history variable counting its replacements. */
  datatype Tidb = Tidb(features: set<Feature>, config: string, rolls: nat)

  datatype TomlValue = Number(n: int) | Other(text: string)

  /** The TOML library: decoding may fail, encoding may fail. */
  datatype Codec = Codec(decode: string -> Option<map<string, TomlValue>>,
                         encode: map<string, TomlValue> -> Option<string>)

  /** What is relied on of the TOML library: what it encodes decodes to the same tables. */
  ghost predicate RoundTrips(codec: Codec)
  {
    forall m :: codec.encode(m).Some? ==> codec.decode(codec.encode(m).value) == Some(m)
  }

  const GRACEFUL_WAIT_KEY := "graceful-wait-before-shutdown"
  const GRACEFUL_WAIT_SECONDS := 15

  function GateSet(gates: seq<Feature>): set<Feature>
  {
    set g | g in gates
  }

  /** The gates and signing reference of a Cluster that does not exist yet. */
  function NewCluster(tiproxy: bool): Cluster
  {
    if tiproxy then Cluster([FeatureModification, SessionTokenSigning], true) else Cluster([], false)
  }

  /** What an existing Cluster keeps plus its next step towards signing. */
  function NextCluster(existing: Cluster, tiproxy: bool, ready: bool): Cluster
  {
    var modification := FeatureModification in existing.gates;
    var kept := if modification || tiproxy then [FeatureModification] else [];
    if SessionTokenSigning in existing.gates then
      Cluster(kept + [SessionTokenSigning], existing.signingSecret)
    else if tiproxy && modification && ready then
      Cluster(kept + [SessionTokenSigning], true)
    else
      Cluster(kept, false)
  }

  /** SessionTokenSigning may be turned on: the signing Secret exists and the
      TiDB group and every TiDB instance already carry FeatureModification. */
  predicate Ready(secret: bool, group: Option<Group>, tidbs: map<nat, Tidb>)
  {
    && secret
    && (group.Some? ==>
          && FeatureModification in group.value.features
          && forall i :: i in tidbs ==> FeatureModification in tidbs[i].features)
  }

  /** The Cluster CRD's rule on spec.featureGates: frozen unless
      FeatureModification is on, except for adding FeatureModification itself. */
  predicate Admitted(from: Cluster, to: Cluster)
  {
    || GateSet(to.gates) == GateSet(from.gates)
    || FeatureModification in from.gates
    || GateSet(to.gates) == GateSet(from.gates) + {FeatureModification}
  }

  /** Every Cluster a pass derives from an existing one is admitted by the CRD,
      keeps both gates once set, and never has signing without modification. */
  lemma NextClusterIsAdmitted(existing: Cluster, tiproxy: bool, ready: bool)
    requires SessionTokenSigning in existing.gates ==> FeatureModification in existing.gates
    ensures Admitted(existing, NextCluster(existing, tiproxy, ready))
    ensures GateSet(existing.gates) <= GateSet(NextCluster(existing, tiproxy, ready).gates)
    ensures var next := NextCluster(existing, tiproxy, ready).gates;
      && (SessionTokenSigning in next ==> FeatureModification in next)
      && (SessionTokenSigning in next && SessionTokenSigning !in existing.gates ==>
            tiproxy && ready && FeatureModification in existing.gates)
  {
    var next := NextCluster(existing, tiproxy, ready);
    assert forall f :: f in existing.gates ==> f == FeatureModification || f == SessionTokenSigning;
  }

  /** A gate added in one step from nothing would be refused: signing on a
      Cluster without FeatureModification is exactly what the CRD freezes. */
  lemma SigningNeedsModificationFirst(existing: Cluster, to: Cluster)
    requires SessionTokenSigning !in existing.gates && SessionTokenSigning in to.gates
    ensures Admitted(existing, to) <==> FeatureModification in existing.gates
  {
    assert SessionTokenSigning in GateSet(to.gates);
    assert SessionTokenSigning !in GateSet(existing.gates) + {FeatureModification};
  }

  /** The Cluster names the signing Secret exactly when it signs. */
  predicate Matched(c: Cluster)
  {
    c.signingSecret <==> SessionTokenSigning in c.gates
  }

  /** A signing Cluster keeps its reference whatever it is; where the reference goes
      with the gate it goes on doing so. */
  lemma NextClusterKeepsReference(existing: Cluster, tiproxy: bool, ready: bool)
    ensures var next := NextCluster(existing, tiproxy, ready);
      && (SessionTokenSigning in existing.gates ==> next.signingSecret == existing.signingSecret)
      && (SessionTokenSigning !in existing.gates ==> Matched(next))
      && (Matched(existing) ==> Matched(next))
  {
  }

  predicate ConfigSets(codec: Codec, cfg: string, key: string)
  {
    var parsed := codec.decode(cfg);
    parsed.Some? && key in parsed.value
  }

  function WithGracefulWait(codec: Codec, cfg: string): string
  {
    match codec.decode(cfg)
    case None => cfg
    case Some(parsed) =>
      if GRACEFUL_WAIT_KEY in parsed then cfg
      else
        match codec.encode(parsed[GRACEFUL_WAIT_KEY := Number(GRACEFUL_WAIT_SECONDS)])
        case None => cfg
        case Some(text) => text
  }

  /** The wait is added once: a config that parses and lacks the key gets it with 15
      seconds and keeps every other key, if it can be encoded; any other is left
      alone, and so is the edited one by the next pass. */
  lemma GracefulWaitIsOneShot(codec: Codec, cfg: string)
    requires RoundTrips(codec)
    ensures var out := WithGracefulWait(codec, cfg);
      && WithGracefulWait(codec, out) == out
      && (out != cfg ==>
            && codec.decode(cfg).Some? && !ConfigSets(codec, cfg, GRACEFUL_WAIT_KEY)
            && ConfigSets(codec, out, GRACEFUL_WAIT_KEY)
            && codec.decode(out).value - {GRACEFUL_WAIT_KEY} == codec.decode(cfg).value)
      && (ConfigSets(codec, cfg, GRACEFUL_WAIT_KEY) ==> out == cfg)
    ensures var parsed := codec.decode(cfg);
      parsed.Some? && "graceful-wait-before-shutdown" !in parsed.value ==>
        var added := parsed.value["graceful-wait-before-shutdown" := Number(15)];
        codec.encode(added).Some? ==> codec.decode(WithGracefulWait(codec, cfg)) == Some(added)
  {
    var out := WithGracefulWait(codec, cfg);
    if out != cfg {
      var parsed := codec.decode(cfg).value;
      var added := parsed[GRACEFUL_WAIT_KEY := Number(GRACEFUL_WAIT_SECONDS)];
      assert codec.decode(codec.encode(added).value) == Some(added);
      assert added - {GRACEFUL_WAIT_KEY} == parsed;
    }
  }

  /** The TiDB config a pass applies, given the user's config, whether the
      Cluster it applied signs tokens, whether it already did before the pass,
      and the group as it exists. */
  function GroupConfig(codec: Codec, userConfig: string, signing: bool, hadSigning: bool, existing: Option<Group>): string
  {
    if !signing then userConfig
    else if hadSigning && existing.Some? && !ConfigSets(codec, existing.value.config, GRACEFUL_WAIT_KEY) then userConfig
    else WithGracefulWait(codec, userConfig)
  }

  /** Once a group holds the config with or without the wait, every later pass
      over a Cluster that already signs applies the same text again. */
  lemma SigningGroupConfigIsStable(codec: Codec, userConfig: string, existing: Group)
    requires RoundTrips(codec)
    requires existing.config == userConfig || existing.config == WithGracefulWait(codec, userConfig)
    ensures GroupConfig(codec, userConfig, true, true, Some(existing)) == existing.config
  {
    GracefulWaitIsOneShot(codec, userConfig);
  }
}
