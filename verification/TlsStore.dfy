/** ensureTLSSecrets on the stored Secrets, as the steps of a run. */
module TlsStore {
  import opened Wrappers
  import opened Tls

  /** Certificates that were there stay what they are. */
  ghost predicate Kept(before: map<Cert, Secret>, after: map<Cert, Secret>)
  {
    forall n :: n in before ==> n in after && after[n] == before[n].(deleting := after[n].deleting)
  }

  /** The Secret is there, and the Cluster's or without a controller. */
  ghost predicate Mine(secrets: map<Cert, Secret>, owner: nat, n: Cert)
  {
    n in secrets && (secrets[n].owner.None? || secrets[n].owner.value == owner)
  }

  /** The Secret is one of a previous Cluster. */
  ghost predicate Foreign(secrets: map<Cert, Secret>, owner: nat, n: Cert)
  {
    n in secrets && secrets[n].owner.Some? && secrets[n].owner.value != owner
  }

  /** The CA and the first k certificates are there for this Cluster. */
  ghost predicate There(secrets: map<Cert, Secret>, owner: nat, leaves: seq<Cert>, k: nat)
    requires k <= |leaves|
  {
    Mine(secrets, owner, Ca) && forall i :: 0 <= i < k ==> Mine(secrets, owner, leaves[i])
  }

  /** What is new is this Cluster's, and signed by the CA that is there. */
  ghost predicate Issued(before: map<Cert, Secret>, after: map<Cert, Secret>, owner: nat)
  {
    forall n :: n in after && n !in before ==>
      after[n].owner == Some(owner) && Ca in after && after[n].ca == after[Ca].ca
  }

  /** A pass goes through: no certificate asked for is a previous Cluster's, and
      there is a CA of this one, or none and none of the certificates. */
  ghost predicate GoesThrough(secrets: map<Cert, Secret>, owner: nat, leaves: seq<Cert>)
  {
    && (forall i :: 0 <= i < |leaves| ==> !Foreign(secrets, owner, leaves[i]))
    && if Ca in secrets then Mine(secrets, owner, Ca) else forall i :: 0 <= i < |leaves| ==> leaves[i] !in secrets
  }

  /** How far a pass that issues certificates has come since start. */
  ghost predicate Progress(start: map<Cert, Secret>, now: map<Cert, Secret>, owner: nat, leaves: seq<Cert>, k: nat, ca: nat)
    requires k <= |leaves|
  {
    && Kept(start, now) && There(now, owner, leaves, k) && now[Ca].ca == ca
    && (forall n :: n in now && n !in start ==> now[n].owner == Some(owner) && now[n].ca == ca)
    && forall i :: 0 <= i < k ==> !Foreign(start, owner, leaves[i])
  }

  /** What the pass does about one certificate, and whether it goes on. */
  ghost predicate LeafDone(before: map<Cert, Secret>, after: map<Cert, Secret>, owner: nat, n: Cert, ca: nat, ok: bool)
  {
    && n in after && after == before[n := after[n]]
    && (ok <==> !Foreign(before, owner, n))
    && if n in before then after[n] == if ok then before[n] else before[n].(deleting := true)
       else after[n].owner == Some(owner) && after[n].ca == ca
  }

  lemma SameForeign(start: map<Cert, Secret>, now: map<Cert, Secret>, owner: nat, leaves: seq<Cert>, k: nat, ca: nat, n: Cert)
    requires k <= |leaves| && Progress(start, now, owner, leaves, k, ca)
    ensures Foreign(now, owner, n) <==> Foreign(start, owner, n)
  {
  }

  lemma Advances(start: map<Cert, Secret>, before: map<Cert, Secret>, after: map<Cert, Secret>, owner: nat, leaves: seq<Cert>,
                 k: nat, ca: nat, ok: bool)
    requires k < |leaves| && Progress(start, before, owner, leaves, k, ca) && LeafDone(before, after, owner, leaves[k], ca, ok)
    ensures ok <==> !Foreign(start, owner, leaves[k])
    ensures if ok then Progress(start, after, owner, leaves, k + 1, ca) else Kept(start, after) && Issued(start, after, owner)
  {
    SameForeign(start, before, owner, leaves, k, ca, leaves[k]);
    assert Kept(start, after) && after[Ca].ca == ca;
  }

  /** What the pass does about the CA, and whether it goes on with one. */
  ghost predicate CaDone(before: map<Cert, Secret>, after: map<Cert, Secret>, owner: nat, leaves: seq<Cert>, ca: Option<nat>)
  {
    && (ca.Some? <==> if Ca in before then Mine(before, owner, Ca) else forall i :: 0 <= i < |leaves| ==> leaves[i] !in before)
    && match ca
       case Some(id) =>
         && Ca in after && after[Ca].ca == id && after == before[Ca := after[Ca]]
         && if Ca in before then after == before else after[Ca].owner == Some(owner)
       case None => Kept(before, after) && after.Keys == before.Keys
  }

  /** A pass with a CA, up to its end. */
  lemma PassEnds(start: map<Cert, Secret>, mid: map<Cert, Secret>, end: map<Cert, Secret>, owner: nat, leaves: seq<Cert>,
                 ca: nat, done: bool)
    requires CaDone(start, mid, owner, leaves, Some(ca)) && Kept(mid, end) && Issued(mid, end, owner)
    requires done <==> forall i :: 0 <= i < |leaves| ==> !Foreign(mid, owner, leaves[i])
    ensures Kept(start, end) && Issued(start, end, owner)
    ensures done <==> GoesThrough(start, owner, leaves)
  {
    assert Kept(start, mid) && Mine(mid, owner, Ca);
    forall n ensures Foreign(mid, owner, n) <==> Foreign(start, owner, n) { }
  }

  /** n steps and then m. */
  lemma StepsOn(w: World, v: World, u: World, n: nat, m: nat)
    requires v == Steps(w, n) && u == Steps(v, m)
    ensures u == Steps(w, n + m)
  {
    StepsAdd(w, n, m);
  }

  lemma LastStep(w: World)
    requires w.pass.Issuing? && w.pass.k == |w.pass.leaves|
    ensures Steps(w, 1) == w.(pass := Idle)
  {
    assert Steps(w, 1) == Apply(Steps(w, 0), Step);
  }

  class Store {
    var secrets: map<Cert, Secret>
    var cas: nat
    var serials: nat
    /** The state of the run this store is in. */
    ghost var world: World

    ghost predicate Valid()
      reads this
    {
      world.secrets == secrets && world.cas == cas && world.serials == serials
    }

    /** Reads a Secret of this Cluster; one of a previous Cluster is deleted. */
    method CurrentSecret(owner: nat, n: Cert) returns (r: Lookup)
      modifies this`secrets
      ensures r == Find(old(secrets), owner, n)
      ensures r.Absent? <==> n !in old(secrets)
      ensures r.Wait? <==> Foreign(old(secrets), owner, n)
      ensures r.Current? ==> n in old(secrets) && r.secret == old(secrets)[n]
      ensures secrets == if r.Wait? then old(secrets)[n := old(secrets)[n].(deleting := true)] else old(secrets)
    {
      if n !in secrets {
        return Absent;
      }
      if secrets[n].owner.None? || secrets[n].owner.value == owner {
        return Current(secrets[n]);
      }
      if !secrets[n].deleting {
        secrets := secrets[n := secrets[n].(deleting := true)];
      } else {
        assert secrets == Mark(secrets, n);
      }
      return Wait;
    }

    /** Creates a Secret; it never overwrites. */
    method CreateOwnedByCluster(owner: nat, n: Cert, ca: nat) returns (created: bool)
      modifies this`secrets, this`serials
      ensures created <==> n !in old(secrets)
      ensures secrets == if created then old(secrets)[n := Secret(Some(owner), ca, false, old(serials))] else old(secrets)
      ensures serials == if created then old(serials) + 1 else old(serials)
    {
      if n in secrets {
        return false;
      }
      secrets := secrets[n := Secret(Some(owner), ca, false, serials)];
      serials := serials + 1;
      return true;
    }

    /** Whether none of the certificates is there; the pass ends at the first that is. */
    method NoneIssued(owner: nat, leaves: seq<Cert>) returns (none: bool, ghost n: nat)
      requires Valid() && world.pass == Checking(owner, leaves, 0)
      modifies this`secrets, this`world
      ensures Valid() && world == Steps(old(world), n)
      ensures none <==> forall i :: 0 <= i < |leaves| ==> leaves[i] !in old(secrets)
      ensures world.pass == if none then Checking(owner, leaves, |leaves|) else Idle
      ensures if none then secrets == old(secrets) else Kept(old(secrets), secrets) && secrets.Keys == old(secrets).Keys
    {
      n := 0;
      for k := 0 to |leaves|
        invariant Valid() && secrets == old(secrets) && world.pass == Checking(owner, leaves, k)
        invariant world == Steps(old(world), n)
        invariant forall i :: 0 <= i < k ==> leaves[i] !in secrets
      {
        var existing := CurrentSecret(owner, leaves[k]);
        world, n := Apply(world, Step), n + 1;
        if !existing.Absent? {
          return false, n;
        }
      }
      return true, n;
    }

    method CreateCa(owner: nat, leaves: seq<Cert>) returns (ca: nat)
      requires Valid() && world.pass == Checking(owner, leaves, |leaves|) && Ca !in secrets
      modifies this
      ensures Valid() && world == Apply(old(world), Step) && world.pass == Issuing(owner, leaves, ca, 0)
      ensures secrets == old(secrets)[Ca := Secret(Some(owner), ca, false, old(serials))]
    {
      ca := cas;
      var created := CreateOwnedByCluster(owner, Ca, ca);
      assert created;
      cas := cas + 1;
      world := Apply(world, Step);
    }

    /** The Cluster's CA, generated only when there is neither a CA nor any of the
        certificates asked for; None when the pass has to stop. */
    method EnsureCa(owner: nat, leaves: seq<Cert>) returns (ca: Option<nat>, ghost n: nat)
      requires Valid() && world.pass == ReadingCa(owner, leaves)
      modifies this
      ensures Valid() && world == Steps(old(world), n)
      ensures world.pass == if ca.Some? then Issuing(owner, leaves, ca.value, 0) else Idle
      ensures CaDone(old(secrets), secrets, owner, leaves, ca)
    {
      ghost var start, before := world, secrets;
      var r := CurrentSecret(owner, Ca);
      world, n := Apply(world, Step), 1;
      assert Steps(start, 0) == start && Steps(start, 1) == world;
      if r.Wait? {
        return None, n;
      }
      if r.Current? {
        return Some(r.secret.ca), n;
      }
      var none;
      ghost var m;
      ghost var reached := world;
      none, m := NoneIssued(owner, leaves);
      StepsOn(start, reached, world, n, m);
      n := n + m;
      if !none {
        return None, n;
      }
      var id := CreateCa(owner, leaves);
      return Some(id), n + 1;
    }

    /** Issues the next certificate if it is not there; false when the pass has
        to wait for one of a previous Cluster to be gone. */
    method EnsureLeaf(owner: nat, leaves: seq<Cert>, ca: nat, k: nat) returns (ok: bool, ghost n: nat)
      requires Valid() && k < |leaves| && world.pass == Issuing(owner, leaves, ca, k)
      modifies this
      ensures Valid() && world == Steps(old(world), n)
      ensures world.pass == if ok then Issuing(owner, leaves, ca, k + 1) else Idle
      ensures LeafDone(old(secrets), secrets, owner, leaves[k], ca, ok)
    {
      var existing := CurrentSecret(owner, leaves[k]);
      world, n := Apply(world, Step), 1;
      if existing.Wait? {
        return false, n;
      }
      if existing.Current? {
        return true, n;
      }
      var created := CreateOwnedByCluster(owner, leaves[k], ca);
      assert created;
      assert world == Steps(old(world), 1);
      world, n := Apply(world, Step), 2;
      return true, n;
    }

    /** Issues the certificates that are not there yet. */
    method IssueLeaves(owner: nat, leaves: seq<Cert>, ca: nat) returns (done: bool, ghost n: nat)
      requires Valid() && world.pass == Issuing(owner, leaves, ca, 0)
      requires Mine(secrets, owner, Ca) && secrets[Ca].ca == ca
      modifies this
      ensures Valid() && world.pass.Idle? && world == Steps(old(world), n)
      ensures done ==> There(secrets, owner, leaves, |leaves|)
      ensures done <==> forall i :: 0 <= i < |leaves| ==> !Foreign(old(secrets), owner, leaves[i])
      ensures Kept(old(secrets), secrets) && Issued(old(secrets), secrets, owner)
    {
      n := 0;
      ghost var start := secrets;
      for k := 0 to |leaves|
        invariant Valid() && world.pass == Issuing(owner, leaves, ca, k)
        invariant world == Steps(old(world), n)
        invariant Progress(start, secrets, owner, leaves, k, ca)
      {
        ghost var before, reached := secrets, world;
        var ok;
        ghost var m;
        ok, m := EnsureLeaf(owner, leaves, ca, k);
        Advances(start, before, secrets, owner, leaves, k, ca, ok);
        StepsOn(old(world), reached, world, n, m);
        n := n + m;
        if !ok {
          return false, n;
        }
      }
      LastStep(world);
      StepsOn(old(world), world, world.(pass := Idle), n, 1);
      world, n := world.(pass := Idle), n + 1;
      return true, n;
    }

    /** Creates the CA and every certificate asked for. When it is done, each is
        there for this Cluster; whatever it finds, it replaces no certificate. */
    method EnsureTlsSecrets(owner: nat, leaves: seq<Cert>) returns (done: bool, ghost n: nat)
      requires Valid() && world.pass.Idle? && world.cluster == Some(owner) && world.leaves == leaves
      modifies this
      ensures Valid() && world.pass.Idle? && world == Steps(Apply(old(world), Begin), n)
      ensures done && leaves != [] ==> There(secrets, owner, leaves, |leaves|)
      ensures done <==> leaves == [] || GoesThrough(old(secrets), owner, leaves)
      ensures Kept(old(secrets), secrets) && Issued(old(secrets), secrets, owner)
    {
      n := 0;
      if |leaves| == 0 {
        return true, n;
      }
      ghost var begun := Apply(world, Begin);
      world := begun;
      var ca;
      ca, n := EnsureCa(owner, leaves);
      ghost var mid := secrets;
      if ca.None? {
        return false, n;
      }
      ghost var m;
      ghost var reached := world;
      done, m := IssueLeaves(owner, leaves, ca.value);
      PassEnds(old(secrets), mid, secrets, owner, leaves, ca.value, done);
      StepsOn(begun, reached, world, n, m);
      n := n + m;
    }
  }
}
