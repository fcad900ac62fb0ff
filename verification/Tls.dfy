/** The Instance's certificates: which are issued, and what every run of provider
    passes, interleaved with deletions and Clusters created again under the same
    name, keeps of them. A certificate is opaque but for the CA that signed it. */
module Tls {
  import opened Wrappers

  datatype Component = Pd | Tikv | Tidb | Tiflash | Tiproxy

  /** The certificate Secrets of an Instance. */
  datatype Cert =
    | Ca
    | ClusterMember(component: Component)
    | ClusterClient
    | MysqlServer
    | TiproxyServer
    | TiproxyBackend
    | SessionTokenSigning

  datatype Settings = Settings(cluster: bool, client: bool)

  function Suffix(c: Cert): string
  {
    match c
    case Ca => "-tls-ca"
    case ClusterMember(Pd) => "-pd-cluster-secret"
    case ClusterMember(Tikv) => "-tikv-cluster-secret"
    case ClusterMember(Tidb) => "-tidb-cluster-secret"
    case ClusterMember(Tiflash) => "-tiflash-cluster-secret"
    case ClusterMember(Tiproxy) => "-tiproxy-cluster-secret"
    case ClusterClient => "-cluster-client-secret"
    case MysqlServer => "-tidb-server-secret"
    case TiproxyServer => "-tiproxy-server-secret"
    case TiproxyBackend => "-tiproxy-tidb-secret"
    case SessionTokenSigning => "-session-token-signing-secret"
  }

  function SecretName(instance: string, c: Cert): string
  {
    instance + Suffix(c)
  }

  /** A suffix is told by its length and fourth character. */
  lemma SuffixShape(c: Cert)
    ensures |Suffix(c)| > 3
    ensures (|Suffix(c)|, Suffix(c)[3]) ==
            match c {
              case Ca => (7, 's')
              case ClusterMember(Pd) => (18, '-')
              case ClusterMember(Tikv) => (20, 'k')
              case ClusterMember(Tidb) => (20, 'd')
              case ClusterMember(Tiflash) => (23, 'f')
              case ClusterMember(Tiproxy) => (23, 'p')
              case ClusterClient => (22, 'u')
              case MysqlServer => (19, 'd')
              case TiproxyServer => (22, 'p')
              case TiproxyBackend => (20, 'p')
              case SessionTokenSigning => (29, 's')
            }
  {
  }

  /** No two certificates of an Instance share a Secret. */
  lemma SecretNamesDiffer(instance: string, a: Cert, b: Cert)
    requires SecretName(instance, a) == SecretName(instance, b)
    ensures a == b
  {
    assert SecretName(instance, a)[|instance|..] == Suffix(a);
    assert SecretName(instance, b)[|instance|..] == Suffix(b);
    SuffixShape(a);
    SuffixShape(b);
  }

  function TlsLeaves(settings: Settings, tiproxy: bool): seq<Cert>
  {
    (if settings.cluster
     then [ClusterMember(Pd), ClusterMember(Tikv), ClusterMember(Tidb), ClusterMember(Tiflash)]
          + (if tiproxy then [ClusterMember(Tiproxy)] else []) + [ClusterClient]
     else [])
    + (if settings.client then [MysqlServer] + (if tiproxy then [TiproxyServer, TiproxyBackend] else []) else [])
  }

  /** What a pass issues: signing is whether TiDB signs session tokens. */
  function Leaves(settings: Settings, tiproxy: bool, signing: bool): seq<Cert>
  {
    TlsLeaves(settings, tiproxy) + (if signing then [SessionTokenSigning] else [])
  }

  predicate Within(a: seq<Cert>, b: seq<Cert>)
  {
    forall i :: 0 <= i < |a| ==> a[i] in b
  }

  /** When a certificate is asked for. */
  predicate Needed(c: Cert, settings: Settings, tiproxy: bool, signing: bool)
  {
    match c
    case Ca => false
    case ClusterMember(m) => settings.cluster && (m.Tiproxy? ==> tiproxy)
    case ClusterClient => settings.cluster
    case MysqlServer => settings.client
    case TiproxyServer | TiproxyBackend => settings.client && tiproxy
    case SessionTokenSigning => signing
  }

  lemma LeavesAreNeeded(c: Cert, settings: Settings, tiproxy: bool, signing: bool)
    ensures c in Leaves(settings, tiproxy, signing) <==> Needed(c, settings, tiproxy, signing)
  {
    var own := Leaves(settings, tiproxy, signing);
    assert c in own <==> c in TlsLeaves(settings, tiproxy) || (signing && c == SessionTokenSigning);
    var members := [ClusterMember(Pd), ClusterMember(Tikv), ClusterMember(Tidb), ClusterMember(Tiflash)];
    if c.ClusterMember? { assert c == ClusterMember(c.component); }
    assert c in members <==> c == members[0] || c == members[1] || c == members[2] || c == members[3];
    var proxies := if tiproxy then [TiproxyServer, TiproxyBackend] else [];
    var inCluster := members + (if tiproxy then [ClusterMember(Tiproxy)] else []) + [ClusterClient];
    assert c in proxies <==> tiproxy && (c == TiproxyServer || c == TiproxyBackend);
    assert c in inCluster <==> c in members || (tiproxy && c == ClusterMember(Tiproxy)) || c == ClusterClient;
    assert c in [MysqlServer] + proxies <==> c == MysqlServer || c in proxies;
    assert c in TlsLeaves(settings, tiproxy) <==> (settings.cluster && c in inCluster) || (settings.client && c in [MysqlServer] + proxies);
    assert c in inCluster <==> Needed(c, Settings(true, false), tiproxy, false);
    assert c in [MysqlServer] + proxies <==> Needed(c, Settings(false, true), tiproxy, false);
  }

  /** Turning TiProxy on, and then signing, only adds certificates; the CA is
      never among them. */
  lemma LeavesGrow(settings: Settings, tiproxy: bool, signing: bool, tiproxy': bool, signing': bool)
    requires (tiproxy ==> tiproxy') && (signing ==> signing')
    ensures Within(Leaves(settings, tiproxy, signing), Leaves(settings, tiproxy', signing'))
    ensures Ca !in Leaves(settings, tiproxy, signing)
  {
    var own := Leaves(settings, tiproxy, signing);
    forall i | 0 <= i < |own| ensures own[i] in Leaves(settings, tiproxy', signing') {
      LeavesAreNeeded(own[i], settings, tiproxy, signing);
      LeavesAreNeeded(own[i], settings, tiproxy', signing');
    }
    LeavesAreNeeded(Ca, settings, tiproxy, signing);
  }

  // ----------------------------------------------------------------- the world

  /** A Secret: the UID of the Cluster that owns it, if one does, the CA it carries,
      and as history the number of the certificate in it. */
  datatype Secret = Secret(owner: Option<nat>, ca: nat, deleting: bool, serial: nat)

  /** Where the pass is, with what it has read: the Cluster's UID, the leaves,
      the next leaf to look at and the CA. */
  datatype Pass =
    | Idle
    | ReadingCa(owner: nat, leaves: seq<Cert>)
    | Checking(owner: nat, leaves: seq<Cert>, k: nat)
    | Issuing(owner: nat, leaves: seq<Cert>, ca: nat, k: nat)
    | Creating(owner: nat, leaves: seq<Cert>, ca: nat, k: nat)

  /** uids, cas and serials count what was handed out; last is history: the CA
      that passes for the current Cluster generated or took up last. */
  datatype World = World(
    cluster: Option<nat>,
    leaves: seq<Cert>,
    secrets: map<Cert, Secret>,
    pass: Pass,
    uids: nat,
    cas: nat,
    serials: nat,
    last: Option<nat>)

  datatype Action =
    | SetLeaves(leaves: seq<Cert>)
    | CreateCluster
    | DeleteCluster
    | Delete(name: Cert)
    | Remove(name: Cert)
    | PutBackCa(owned: bool)
    | Begin
    | Step
    | Crash

  datatype Lookup = Absent | Current(secret: Secret) | Wait

  function Find(secrets: map<Cert, Secret>, owner: nat, n: Cert): Lookup
  {
    if n !in secrets then Absent
    else if secrets[n].owner.None? || secrets[n].owner.value == owner then Current(secrets[n])
    else Wait
  }

  function Mark(secrets: map<Cert, Secret>, n: Cert): map<Cert, Secret>
    requires n in secrets
  {
    secrets[n := secrets[n].(deleting := true)]
  }

  /** The pass gives up on a Secret of a previous Cluster, which it deletes. */
  function WaitFor(w: World, n: Cert): World
    requires n in w.secrets
  {
    w.(secrets := Mark(w.secrets, n), pass := Idle)
  }

  function Put(w: World, n: Cert, owner: nat, ca: nat): World
  {
    w.(secrets := w.secrets[n := Secret(Some(owner), ca, false, w.serials)], serials := w.serials + 1)
  }

  /** The pass creates a new CA; creating never overwrites. */
  function GenerateCa(w: World, owner: nat, leaves: seq<Cert>): World
  {
    if Ca in w.secrets then w.(pass := Idle)
    else
      Put(w, Ca, owner, w.cas).(cas := w.cas + 1,
                                last := if w.cluster == Some(owner) then Some(w.cas) else w.last,
                                pass := Issuing(owner, leaves, w.cas, 0))
  }

  function CreateLeaf(w: World, owner: nat, leaves: seq<Cert>, ca: nat, k: nat): World
    requires k < |leaves|
  {
    if leaves[k] in w.secrets then w.(pass := Idle)
    else Put(w, leaves[k], owner, ca).(pass := Issuing(owner, leaves, ca, k + 1))
  }

  /** One step of ensureTLSSecrets: read a Secret, or create one. */
  function ProviderStep(w: World): World
  {
    match w.pass
    case Idle => w
    case ReadingCa(owner, leaves) =>
      (match Find(w.secrets, owner, Ca)
       case Current(s) =>
         w.(pass := Issuing(owner, leaves, s.ca, 0), last := if w.cluster == Some(owner) then Some(s.ca) else w.last)
       case Wait => WaitFor(w, Ca)
       case Absent => w.(pass := Checking(owner, leaves, 0)))
    case Checking(owner, leaves, k) =>
      if k >= |leaves| then GenerateCa(w, owner, leaves)
      else
        (match Find(w.secrets, owner, leaves[k])
         case Current(_) => w.(pass := Idle)
         case Wait => WaitFor(w, leaves[k])
         case Absent => w.(pass := Checking(owner, leaves, k + 1)))
    case Issuing(owner, leaves, ca, k) =>
      if k >= |leaves| then w.(pass := Idle)
      else
        (match Find(w.secrets, owner, leaves[k])
         case Current(_) => w.(pass := Issuing(owner, leaves, ca, k + 1))
         case Wait => WaitFor(w, leaves[k])
         case Absent => w.(pass := Creating(owner, leaves, ca, k)))
    case Creating(owner, leaves, ca, k) =>
      if k >= |leaves| then w.(pass := Idle) else CreateLeaf(w, owner, leaves, ca, k)
  }

  function Apply(w: World, a: Action): World
  {
    match a
    case SetLeaves(leaves) => if Ca in leaves then w else w.(leaves := leaves)
    case CreateCluster =>
      if w.cluster.None? then w.(cluster := Some(w.uids), uids := w.uids + 1, last := None) else w
    case DeleteCluster => w.(cluster := None)
    case Delete(n) => if n in w.secrets then w.(secrets := Mark(w.secrets, n)) else w
    case Remove(n) =>
      if n in w.secrets && (w.secrets[n].deleting || (w.secrets[n].owner.Some? && w.cluster != w.secrets[n].owner))
      then w.(secrets := w.secrets - {n})
      else w
    case PutBackCa(owned) =>
      if w.cluster.Some? && w.last.Some? && Ca !in w.secrets
      then w.(secrets := w.secrets[Ca := Secret(if owned then w.cluster else None, w.last.value, false, w.serials)],
              serials := w.serials + 1)
      else w
    case Begin =>
      if w.pass.Idle? && w.cluster.Some? && w.leaves != []
      then w.(pass := ReadingCa(w.cluster.value, w.leaves))
      else w
    case Step => ProviderStep(w)
    case Crash => w.(pass := Idle)
  }

  function Exec(w: World, actions: seq<Action>): World
    decreases |actions|
  {
    if actions == [] then w else Exec(Apply(w, actions[0]), actions[1..])
  }

  function Fresh(leaves: seq<Cert>): World
  {
    World(None, leaves, map[], Idle, 0, 0, 0, None)
  }

  // ---------------------------------------------------------------- invariant

  /** The Secret is the current Cluster's, or has no owner: passes take it as it is. */
  predicate InUse(w: World, n: Cert)
  {
    n in w.secrets && w.cluster.Some? && (w.secrets[n].owner.None? || w.secrets[n].owner == w.cluster)
  }

  /** All certificates of the current Cluster carry one CA, and the CA Secret it
      takes, when present, holds that CA. */
  ghost predicate OneCa(w: World)
  {
    forall a, b :: InUse(w, a) && InUse(w, b) ==> w.secrets[a].ca == w.secrets[b].ca
  }

  /** What holds whatever leaves are asked for: UIDs and CAs are never handed out
      twice, a pass for the current Cluster knows the CA generated last and has
      seen no Secret among the leaves it checked. */
  ghost predicate Core(w: World)
  {
    && Ca !in w.leaves
    && (w.cluster.Some? ==> w.cluster.value < w.uids)
    && (w.last.Some? ==> w.last.value < w.cas)
    && (forall n :: n in w.secrets ==> w.secrets[n].serial < w.serials && (w.secrets[n].owner.Some? ==> w.secrets[n].owner.value < w.uids))
    && (forall n :: n in w.secrets && w.secrets[n].owner.None? ==> n == Ca && w.secrets[n].ca < w.cas)
    && (!w.pass.Idle? ==>
          && w.pass.owner < w.uids && Ca !in w.pass.leaves
          && ((w.pass.Issuing? || w.pass.Creating?) && w.cluster == Some(w.pass.owner) ==> w.last == Some(w.pass.ca))
          && (w.pass.Checking? && w.cluster == Some(w.pass.owner) ==>
                w.pass.k <= |w.pass.leaves| && forall i :: 0 <= i < w.pass.k ==> !InUse(w, w.pass.leaves[i])))
  }

  /** Every Secret of the current Cluster carries the CA it generated or took up
      last; before that there is at most a CA without an owner. */
  ghost predicate Signed(w: World)
  {
    forall n :: InUse(w, n) ==> w.last == Some(w.secrets[n].ca) || (w.last.None? && w.secrets[n].owner.None?)
  }

  /** Every certificate of the current Cluster is still asked for. */
  ghost predicate Asked(w: World)
  {
    && (forall n :: InUse(w, n) && n != Ca ==> n in w.leaves)
    && (w.cluster.Some? && !w.pass.Idle? && w.pass.owner == w.cluster.value ==>
          && Within(w.pass.leaves, w.leaves)
          && forall n :: InUse(w, n) && n != Ca ==> n in w.pass.leaves)
  }

  /** The step generates a CA beside a certificate of the current Cluster that
      the pass does not ask for. */
  ghost predicate GeneratesBeside(w: World, a: Action)
  {
    && a.Step? && w.pass.Checking? && w.pass.k == |w.pass.leaves|
    && w.cluster == Some(w.pass.owner) && Ca !in w.secrets
    && exists n :: InUse(w, n)
  }

  lemma SignedIsOneCa(w: World)
    requires Core(w) && Signed(w)
    ensures OneCa(w)
  {
  }

  /** Marking or keeping the Secrets, with a pass that is over. */
  lemma CoreEnds(w: World, n: Cert)
    requires Core(w)
    ensures Core(w.(pass := Idle)) && (n in w.secrets ==> Core(WaitFor(w, n)))
  {
  }

  lemma CoreReadingCa(w: World)
    requires Core(w) && Signed(w) && w.pass.ReadingCa?
    ensures Core(ProviderStep(w))
  {
    CoreEnds(w, Ca);
    assert Find(w.secrets, w.pass.owner, Ca).Current? && w.cluster == Some(w.pass.owner) ==> InUse(w, Ca);
  }

  lemma CoreChecking(w: World)
    requires Core(w) && w.pass.Checking? && w.pass.k < |w.pass.leaves|
    ensures Core(ProviderStep(w))
  {
    CoreEnds(w, w.pass.leaves[w.pass.k]);
  }

  lemma CoreGenerate(w: World)
    requires Core(w) && w.pass.Checking? && w.pass.k >= |w.pass.leaves|
    ensures Core(ProviderStep(w))
  {
    CoreEnds(w, Ca);
  }

  lemma CoreIssuing(w: World)
    requires Core(w) && w.pass.Issuing?
    ensures Core(ProviderStep(w))
  {
    if w.pass.k < |w.pass.leaves| { CoreEnds(w, w.pass.leaves[w.pass.k]); } else { CoreEnds(w, Ca); }
  }

  lemma CoreCreating(w: World)
    requires Core(w) && w.pass.Creating?
    ensures Core(ProviderStep(w))
  {
    CoreEnds(w, Ca);
  }

  lemma CoreStep(w: World)
    requires Core(w) && Signed(w)
    ensures Core(ProviderStep(w))
  {
    match w.pass
    case Idle =>
    case ReadingCa(_, _) => CoreReadingCa(w);
    case Checking(_, leaves, k) => if k < |leaves| { CoreChecking(w); } else { CoreGenerate(w); }
    case Issuing(_, _, _, _) => CoreIssuing(w);
    case Creating(_, _, _, _) => CoreCreating(w);
  }

  lemma CoreKeeps(w: World, a: Action)
    requires Core(w) && Signed(w)
    ensures Core(Apply(w, a))
  {
    if a.Step? {
      CoreStep(w);
    } else {
      var v := Apply(w, a);
      assert forall n :: InUse(v, n) && n != Ca ==> InUse(w, n);
    }
  }

  /** Exactly which step signs the certificates of a Cluster with two CAs. */
  lemma MixingStep(w: World, a: Action)
    requires Core(w) && Signed(w)
    ensures GeneratesBeside(w, a) ==> !OneCa(Apply(w, a))
    ensures !GeneratesBeside(w, a) ==> Signed(Apply(w, a))
  {
    if GeneratesBeside(w, a) {
      GeneratesSecond(w, a);
    } else {
      StaysSigned(w, a);
    }
  }

  lemma GeneratesSecond(w: World, a: Action)
    requires Core(w) && Signed(w) && GeneratesBeside(w, a)
    ensures !OneCa(Apply(w, a))
  {
    var n :| InUse(w, n);
    assert InUse(Apply(w, a), n) && InUse(Apply(w, a), Ca);
  }

  lemma StaysSigned(w: World, a: Action)
    requires Core(w) && Signed(w) && !GeneratesBeside(w, a)
    ensures Signed(Apply(w, a))
  {
    if a.Step? {
      StepStaysSigned(w);
    } else {
      var v := Apply(w, a);
      assert forall n :: InUse(v, n) && n in w.secrets && v.cluster == w.cluster && w.secrets[n].owner == v.secrets[n].owner ==> InUse(w, n);
    }
  }

  lemma StepStaysSigned(w: World)
    requires Core(w) && Signed(w) && !GeneratesBeside(w, Step)
    ensures Signed(ProviderStep(w))
  {
    var v := ProviderStep(w);
    assert forall n :: InUse(v, n) && n in w.secrets ==> InUse(w, n);
    assert w.pass.ReadingCa? && Find(w.secrets, w.pass.owner, Ca).Current? && w.cluster == Some(w.pass.owner) ==> InUse(w, Ca);
  }

  // ------------------------------------------------------------------ the runs

  /** The certificates asked for only grow while a Cluster lives. */
  predicate Allowed(w: World, a: Action)
  {
    a.SetLeaves? && w.cluster.Some? ==> Within(w.leaves, a.leaves)
  }

  predicate AllowedRun(w: World, actions: seq<Action>)
    decreases |actions|
  {
    actions == [] || (Allowed(w, actions[0]) && AllowedRun(Apply(w, actions[0]), actions[1..]))
  }

  lemma AskedStep(w: World)
    requires Core(w) && Asked(w)
    ensures Asked(ProviderStep(w))
  {
    var v := ProviderStep(w);
    assert v.cluster == w.cluster && v.leaves == w.leaves;
    assert forall n :: InUse(v, n) && n != Ca && n in w.secrets ==> InUse(w, n);
  }

  lemma AskedKeeps(w: World, a: Action)
    requires Core(w) && Asked(w) && Allowed(w, a)
    ensures Asked(Apply(w, a))
  {
    if a.Step? {
      AskedStep(w);
    } else {
      var v := Apply(w, a);
      assert forall n :: InUse(v, n) && n != Ca && v.cluster == w.cluster ==> InUse(w, n);
    }
  }

  lemma AskedIsNotBeside(w: World, a: Action)
    requires Core(w) && Asked(w)
    ensures !GeneratesBeside(w, a)
  {
  }

  lemma {:induction false} RunKeeps(w: World, actions: seq<Action>)
    requires Core(w) && Signed(w) && Asked(w) && AllowedRun(w, actions)
    ensures Core(Exec(w, actions)) && Signed(Exec(w, actions)) && Asked(Exec(w, actions))
    decreases |actions|
  {
    if actions != [] {
      AskedIsNotBeside(w, actions[0]);
      MixingStep(w, actions[0]);
      CoreKeeps(w, actions[0]);
      AskedKeeps(w, actions[0]);
      RunKeeps(Apply(w, actions[0]), actions[1..]);
    }
  }

  /** Main result. In every run, with passes stopped anywhere, any Secret deleted
      at any time and Clusters deleted and created again, the certificates owned
      by the current Cluster and its CA Secret carry the CA generated last for it,
      as long as the certificates asked for only grow while a Cluster lives. */
  lemma OneCaPerCluster(leaves: seq<Cert>, actions: seq<Action>)
    requires Ca !in leaves && AllowedRun(Fresh(leaves), actions)
    ensures OneCa(Exec(Fresh(leaves), actions)) && Signed(Exec(Fresh(leaves), actions))
  {
    RunKeeps(Fresh(leaves), actions);
    SignedIsOneCa(Exec(Fresh(leaves), actions));
  }

  /** A certificate is issued once: while nothing removes its Secret, every run
      leaves the certificate, its CA and its owner as they are. */
  lemma {:induction false} NeverReissued(w: World, actions: seq<Action>, n: Cert)
    requires n in w.secrets && Remove(n) !in actions
    ensures var v := Exec(w, actions);
      n in v.secrets && v.secrets[n] == w.secrets[n].(deleting := v.secrets[n].deleting)
    decreases |actions|
  {
    if actions != [] {
      assert actions[0] in actions;
      NeverReissued(Apply(w, actions[0]), actions[1..], n);
    }
  }

  // ------------------------------------------------------- undisturbed passes

  /** n steps of the pass with nothing in between. */
  function Steps(w: World, n: nat): World
  {
    if n == 0 then w else Apply(Steps(w, n - 1), Step)
  }

  function Repeat(n: nat): seq<Action>
  {
    if n == 0 then [] else Repeat(n - 1) + [Step]
  }

  lemma {:induction false} ExecAppend(w: World, a: seq<Action>, b: seq<Action>)
    ensures Exec(w, a + b) == Exec(Exec(w, a), b)
    decreases |a|
  {
    if a == [] {
      assert a + b == b;
    } else {
      assert (a + b)[1..] == a[1..] + b;
      ExecAppend(Apply(w, a[0]), a[1..], b);
    }
  }

  lemma {:induction false} StepsIsExec(w: World, n: nat)
    ensures Steps(w, n) == Exec(w, Repeat(n))
  {
    if n > 0 {
      StepsIsExec(w, n - 1);
      ExecAppend(w, Repeat(n - 1), [Step]);
      assert [Step][1..] == [];
    }
  }

  /** The CA is missing, and so are all certificates asked for, but one that is
      not asked for any more is there. */
  ghost predicate OnlyUnasked(w: World)
  {
    && Ca !in w.secrets && (forall i :: 0 <= i < |w.leaves| ==> w.leaves[i] !in w.secrets)
    && exists n :: InUse(w, n)
  }

  ghost predicate CanBegin(w: World)
  {
    Core(w) && Signed(w) && w.pass.Idle? && w.cluster.Some? && w.leaves != []
  }

  /** Before it writes anything, an undisturbed pass has the Secrets it began with. */
  ghost predicate Undisturbed(w: World, v: World)
    requires w.cluster.Some?
  {
    && v.cluster == w.cluster
    && (v.pass.ReadingCa? || v.pass.Checking? ==>
          && v.pass.owner == w.cluster.value && v.pass.leaves == w.leaves && v.secrets == w.secrets)
    && (v.pass.Checking? ==>
          && Ca !in w.secrets && v.pass.k <= |w.leaves|
          && forall i :: 0 <= i < v.pass.k ==> w.leaves[i] !in w.secrets)
  }

  lemma NeverBeside(w: World, v: World)
    requires w.cluster.Some? && Undisturbed(w, v) && !OnlyUnasked(w)
    ensures !GeneratesBeside(v, Step)
  {
    assert v.pass.Checking? ==> forall n :: InUse(v, n) <==> InUse(w, n);
  }

  lemma StaysUndisturbed(w: World, v: World)
    requires w.cluster.Some? && Undisturbed(w, v)
    ensures Undisturbed(w, Apply(v, Step))
  {
  }

  lemma {:induction false} PassKeeps(w: World, n: nat)
    requires CanBegin(w) && !OnlyUnasked(w)
    ensures var v := Steps(Apply(w, Begin), n); Core(v) && Signed(v) && Undisturbed(w, v)
  {
    if n > 0 {
      PassKeeps(w, n - 1);
      var v := Steps(Apply(w, Begin), n - 1);
      NeverBeside(w, v);
      MixingStep(v, Step);
      CoreKeeps(v, Step);
      StaysUndisturbed(w, v);
    }
  }

  lemma {:induction false} PassChecks(w: World, k: nat)
    requires CanBegin(w) && OnlyUnasked(w) && k <= |w.leaves|
    ensures var v := Steps(Apply(w, Begin), k + 1);
      && v == w.(pass := Checking(w.cluster.value, w.leaves, k))
      && Core(v) && Signed(v)
  {
    if k > 0 {
      PassChecks(w, k - 1);
      CoreKeeps(Steps(Apply(w, Begin), k), Step);
      MixingStep(Steps(Apply(w, Begin), k), Step);
    } else {
      CoreKeeps(w, Begin);
      MixingStep(w, Begin);
      assert Steps(Apply(w, Begin), 1) == Apply(Steps(Apply(w, Begin), 0), Step);
      CoreKeeps(Apply(w, Begin), Step);
      MixingStep(Apply(w, Begin), Step);
    }
  }

  /** Exactly when an undisturbed pass leaves certificates of two CAs: it asks
      whether a certificate exists only of those it needs itself. */
  lemma PassMixesExactly(w: World)
    requires CanBegin(w)
    ensures (exists n :: !OneCa(Steps(Apply(w, Begin), n))) <==> OnlyUnasked(w)
  {
    if OnlyUnasked(w) {
      PassChecks(w, |w.leaves|);
      var v := Steps(Apply(w, Begin), |w.leaves| + 1);
      var m :| InUse(w, m);
      assert InUse(v, m);
      MixingStep(v, Step);
      assert !OneCa(Steps(Apply(w, Begin), |w.leaves| + 2));
    } else {
      forall n ensures OneCa(Steps(Apply(w, Begin), n)) {
        PassKeeps(w, n);
        SignedIsOneCa(Steps(Apply(w, Begin), n));
      }
    }
  }

  // ------------------------------------------------ a run with shrinking leaves

  const ON := Leaves(Settings(false, true), true, false)
  const OFF := Leaves(Settings(false, true), false, false)

  /** After the first pass of an Instance with TiProxy and client TLS. */
  function AllIssued(): World
  {
    World(Some(0), ON, map[Ca := Secret(Some(0), 0, false, 0), MysqlServer := Secret(Some(0), 0, false, 1),
                           TiproxyServer := Secret(Some(0), 0, false, 2), TiproxyBackend := Secret(Some(0), 0, false, 3)],
          Idle, 1, 1, 4, Some(0))
  }

  lemma StepsAdd(w: World, n: nat, m: nat)
    ensures Steps(w, n + m) == Steps(Steps(w, n), m)
  {
  }

  /** Reading that there is no certificate, and creating it. */
  lemma Issues(w: World)
    requires w.pass.Issuing? && w.pass.k < |w.pass.leaves| && w.pass.leaves[w.pass.k] !in w.secrets
    ensures Steps(w, 2) == CreateLeaf(w, w.pass.owner, w.pass.leaves, w.pass.ca, w.pass.k)
  {
    var v := w.(pass := Creating(w.pass.owner, w.pass.leaves, w.pass.ca, w.pass.k));
    assert Steps(w, 1) == Apply(Steps(w, 0), Step) == v;
    assert Steps(w, 2) == Apply(Steps(w, 1), Step);
  }

  /** Where there is no Secret at all, a pass looks at every leaf. */
  lemma {:induction false} ChecksAll(w: World, owner: nat, leaves: seq<Cert>, k: nat)
    requires w.pass == ReadingCa(owner, leaves) && w.secrets == map[] && k <= |leaves|
    ensures Steps(w, k + 1) == w.(pass := Checking(owner, leaves, k))
  {
    if k > 0 {
      ChecksAll(w, owner, leaves, k - 1);
      assert Steps(w, k + 1) == ProviderStep(w.(pass := Checking(owner, leaves, k - 1)));
    } else {
      assert Steps(w, 1) == ProviderStep(Steps(w, 0));
    }
  }

  lemma FirstChecks(w: World)
    requires w == Apply(Apply(Fresh(ON), CreateCluster), Begin)
    ensures Steps(w, 5) == GenerateCa(w, 0, ON) && w.pass == ReadingCa(0, ON)
  {
    assert |ON| == 3;
    ChecksAll(w, 0, ON, 3);
    assert Steps(w, 5) == ProviderStep(Steps(w, 4));
  }

  lemma FirstPass()
    ensures Steps(Apply(Apply(Fresh(ON), CreateCluster), Begin), 5 + 7) == AllIssued()
  {
    var w := Apply(Apply(Fresh(ON), CreateCluster), Begin);
    FirstChecks(w);
    FirstIssues(GenerateCa(w, 0, ON));
    StepsAdd(w, 5, 7);
  }

  lemma FirstIssues(g: World)
    requires g == World(Some(0), ON, map[Ca := Secret(Some(0), 0, false, 0)], Issuing(0, ON, 0, 0), 1, 1, 1, Some(0))
    ensures Steps(g, 7) == AllIssued()
  {
    assert ON == [MysqlServer, TiproxyServer, TiproxyBackend];
    var g1 := CreateLeaf(g, 0, ON, 0, 0);
    var g2 := CreateLeaf(g1, 0, ON, 0, 1);
    var g3 := CreateLeaf(g2, 0, ON, 0, 2);
    Issues(g);
    Issues(g1);
    Issues(g2);
    StepsAdd(g, 2, 2);
    StepsAdd(g, 4, 2);
    StepsAdd(g, 6, 1);
    assert Steps(g3, 1) == Apply(Steps(g3, 0), Step) == AllIssued();
  }

  /** Turn TiProxy off, then delete the CA and the certificate that is still asked
      for: the next pass issues it from a new CA, and TiProxy's keep the old one. */
  lemma SomeRunMixes() returns (actions: seq<Action>)
    ensures !OneCa(Exec(Fresh(ON), actions))
  {
    var first := [CreateCluster, Begin] + Repeat(5 + 7);
    var edit := [SetLeaves(OFF), Delete(Ca), Remove(Ca), Delete(MysqlServer), Remove(MysqlServer)];
    var w := Apply(Apply(Fresh(ON), CreateCluster), Begin);
    FirstPass();
    StepsIsExec(w, 5 + 7);
    ExecAppend(Fresh(ON), [CreateCluster, Begin], Repeat(5 + 7));
    assert Exec(Fresh(ON), [CreateCluster, Begin]) == w;
    var v := Edited(edit);
    PassMixesExactly(v);
    var n :| !OneCa(Steps(Apply(v, Begin), n));
    StepsIsExec(Apply(v, Begin), n);
    actions := first + edit + ([Begin] + Repeat(n));
    ExecAppend(Fresh(ON), first + edit, [Begin] + Repeat(n));
    ExecAppend(Fresh(ON), first, edit);
    ExecAppend(v, [Begin], Repeat(n));
    assert [Begin][1..] == [];
  }

  lemma Edited(edit: seq<Action>) returns (v: World)
    requires edit == [SetLeaves(OFF), Delete(Ca), Remove(Ca), Delete(MysqlServer), Remove(MysqlServer)]
    ensures v == Exec(AllIssued(), edit) && CanBegin(v) && OnlyUnasked(v)
  {
    var w := AllIssued();
    var w1 := Apply(w, edit[0]);
    var w2 := Apply(w1, edit[1]);
    var w3 := Apply(w2, edit[2]);
    var w4 := Apply(w3, edit[3]);
    v := Apply(w4, edit[4]);
    assert edit[1..][1..] == edit[2..] && edit[2..][1..] == edit[3..] && edit[3..][1..] == edit[4..] && edit[4..][1..] == [];
    assert Exec(w2, edit[2..]) == Exec(w3, edit[3..]) == Exec(w4, edit[4..]) == v;
    assert OFF == [MysqlServer];
    assert InUse(v, TiproxyServer);
  }
}
