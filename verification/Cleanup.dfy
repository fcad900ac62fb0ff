/** Cleanup on the stored objects, as the steps of a run. */
module Cleanup {
  import opened Teardown

  /** n steps of the provider with nothing in between. */
  function Steps(w: World, n: nat): World
  {
    if n == 0 then w else Apply(Steps(w, n - 1), Step)
  }

  ghost predicate Reaches(w: World, v: World)
  {
    exists n: nat :: Steps(w, n) == v
  }

  lemma Add(w: World, n: nat, m: nat)
    ensures Steps(w, n + m) == Steps(Steps(w, n), m)
  {
  }

  lemma Here(w: World)
    ensures Reaches(w, w)
  {
    assert Steps(w, 0) == w;
  }

  lemma OneMore(w: World, v: World)
    requires Reaches(w, v)
    ensures Reaches(w, ProviderStep(v))
  {
    var n: nat :| Steps(w, n) == v;
    assert Steps(w, n + 1) == Apply(v, Step);
  }

  lemma Onwards(u: World, v: World, w: World)
    requires Reaches(u, v) && Reaches(v, w)
    ensures Reaches(u, w)
  {
    var n: nat :| Steps(u, n) == v;
    var m: nat :| Steps(v, m) == w;
    Add(u, n, m);
  }

  /** What was counted in k looks is none exactly if they found nothing. */
  ghost predicate Counted(w: World, k: nat, left: nat, before: nat)
  {
    && w.pass == Scanning(k, left)
    && (left == 0 <==> before == 0 && forall j: nat :: j < k ==> Found(w, j) == 0)
  }

  lemma Looks(w: World, k: nat, left: nat, before: nat)
    requires Counted(w, k, left, before) && k < 2 * |KINDS|
    ensures ProviderStep(w) == w.(pass := Scanning(k + 1, left + Found(w, k)))
    ensures Counted(ProviderStep(w), k + 1, left + Found(w, k), before)
  {
    assert forall j: nat :: Found(ProviderStep(w), j) == Found(w, j);
  }

  /** The scan finds none of what is not there. */
  lemma FoundNone(w: World)
    requires w.groups == {} && w.members == multiset{}
    ensures forall j: nat :: Found(w, j) == 0
  {
  }

  class Store {
    var log: Stage
    var cluster: Stage
    var groups: set<Component>
    var members: multiset<Component>
    /** The state of the run this store is in. */
    ghost var world: World

    ghost predicate Valid()
      reads this
    {
      world.log == log && world.cluster == cluster && world.groups == groups && world.members == members
    }

    /** Deletes the log backup and tells whether it is gone. One that TiDB Operator
        can't stop any more, because its cluster is gone, is released. */
    method StopLogBackup() returns (stopped: bool)
      requires Valid() && world.pass.ReadingLog?
      modifies this`log, this`world
      ensures Valid() && Reaches(old(world), world)
      ensures stopped <==> old(log).Absent?
      ensures world.pass == if stopped then ReadingCluster else Idle
      ensures world.instance == old(world.instance)
      ensures log == match old(log) {
                       case Absent => Absent
                       case Present => Terminating
                       case Terminating => if cluster.Absent? then Absent else Terminating
                     }
    {
      Here(world);
      OneMore(world, world);
      ghost var read := ProviderStep(world);
      OneMore(world, read);
      OneMore(world, ProviderStep(read));
      if log.Absent? {
        world := read;
        return true;
      }
      if log.Present? {
        log, world := Terminating, ProviderStep(read);
        return false;
      }
      if cluster.Absent? {
        log, world := Absent, ProviderStep(ProviderStep(read));
        return false;
      }
      world := ProviderStep(read);
      return false;
    }

    /** Deletes the Cluster; left counts it while it is there. */
    method DeleteCluster() returns (left: nat)
      requires Valid() && world.pass.ReadingCluster?
      modifies this`cluster, this`world
      ensures Valid() && Reaches(old(world), world)
      ensures world.pass == Scanning(0, left) && world.instance == old(world.instance)
      ensures left == if old(cluster).Absent? then 0 else 1
      ensures cluster == Deleting(old(cluster))
      ensures cluster == if old(cluster).Absent? then Absent else Terminating
    {
      Here(world);
      OneMore(world, world);
      OneMore(world, ProviderStep(world));
      left := 0;
      world := ProviderStep(world);
      if !cluster.Absent? {
        left := left + 1;
        if cluster.Present? {
          cluster, world := Terminating, ProviderStep(world);
        }
      }
    }

    /** Counts what the operator has not removed yet. */
    method CountLeft(counted: nat) returns (left: nat)
      requires Valid() && world.pass == Scanning(0, counted)
      modifies this`world
      ensures Reaches(old(world), world) && world == old(world).(pass := Scanning(2 * |KINDS|, left))
      ensures left == 0 <==> counted == 0 && groups == {} && members == multiset{}
    {
      left := counted;
      Here(world);
      for k := 0 to |KINDS|
        invariant world == old(world).(pass := Scanning(k, left)) && Reaches(old(world), world)
        invariant Counted(world, k, left, counted)
      {
        Looks(world, k, left, counted);
        OneMore(old(world), world);
        world := ProviderStep(world);
        if KINDS[k] in groups {
          left := left + 1;
        }
      }
      for k := 0 to |KINDS|
        invariant world == old(world).(pass := Scanning(|KINDS| + k, left)) && Reaches(old(world), world)
        invariant Counted(world, |KINDS| + k, left, counted)
      {
        Looks(world, |KINDS| + k, left, counted);
        OneMore(old(world), world);
        world := ProviderStep(world);
        left := left + members[KINDS[k]];
      }
      if left == 0 {
        ScannedAll(world);
      } else if groups == {} && members == multiset{} {
        FoundNone(world);
      }
    }

    /** Deletes the Cluster, once the log backup is gone; succeeds when nothing of
        the Instance is left. */
    method Cleanup() returns (success: bool)
      requires Valid() && world.pass.Idle? && world.instance.Deleted?
      modifies this`log, this`cluster, this`world
      ensures Valid() && Reaches(old(world), world) && world.pass.Idle?
      ensures success <==> world.instance.Gone?
      ensures success <==> old(NothingLeft(world))
      ensures !old(log).Absent? ==> cluster == old(cluster)
      ensures old(log).Absent? ==> log.Absent? && cluster == Deleting(old(cluster))
    {
      Here(world);
      OneMore(world, world);
      ghost var v := ProviderStep(world);
      world := v;
      var stopped := StopLogBackup();
      Onwards(old(world), v, world);
      if !stopped {
        return false;
      }
      v := world;
      var left := DeleteCluster();
      Onwards(old(world), v, world);
      v := world;
      left := CountLeft(left);
      Onwards(old(world), v, world);
      OneMore(old(world), world);
      world := ProviderStep(world);
      return left == 0;
    }
  }
}
