/** Retention of a schedule's backups: what expires, stated on sets, and the
    sort-and-count code that computes it. */
module Retention {
  import opened Wrappers
  import opened Slots

  datatype BackupState = Pending | Running | Succeeded | Failed

  /** A Backup as the scheduler reads it. */
  datatype Backup = Backup(name: string, schedule: string, created: Time, state: BackupState, deleting: bool)

  /** A schedule's retention. A window carries the creation time before which
      backups expire, None when its duration does not parse. */
  datatype Retention = Forever | Count(count: Option<int>) | Window(cutoff: Option<Time>) | Unknown

  datatype Result = Expired(backups: seq<Backup>) | Invalid

  predicate Finished(b: Backup)
  {
    b.state.Succeeded? || b.state.Failed?
  }

  /** Retention only looks at finished backups that are not being deleted. */
  predicate Candidate(b: Backup)
  {
    !b.deleting && Finished(b)
  }

  // ------------------------------------------------------------- newest first

  /** Byte order on names. */
  predicate NameLess(a: string, b: string)
  {
    if b == [] then false
    else if a == [] then true
    else a[0] < b[0] || (a[0] == b[0] && NameLess(a[1..], b[1..]))
  }

  lemma {:induction false} NameOrder(a: string, b: string)
    ensures !(NameLess(a, b) && NameLess(b, a))
    ensures NameLess(a, b) || NameLess(b, a) <==> a != b
  {
    if a != [] && b != [] {
      NameOrder(a[1..], b[1..]);
      assert a == [a[0]] + a[1..] && b == [b[0]] + b[1..];
    }
  }

  lemma {:induction false} NameTransitive(a: string, b: string, c: string)
    requires NameLess(a, b) && NameLess(b, c)
    ensures NameLess(a, c)
  {
    if a != [] && a[0] == b[0] == c[0] {
      NameTransitive(a[1..], b[1..], c[1..]);
    }
  }

  predicate Newer(a: Backup, b: Backup)
  {
    a.created > b.created || (a.created == b.created && NameLess(b.name, a.name))
  }

  lemma NewerOrder(a: Backup, b: Backup)
    ensures !(Newer(a, b) && Newer(b, a))
    ensures a.name != b.name ==> Newer(a, b) || Newer(b, a)
    ensures Newer(a, b) ==> a != b
  {
    NameOrder(a.name, b.name);
  }

  lemma NewerTransitive(a: Backup, b: Backup, c: Backup)
    requires Newer(a, b) && Newer(b, c)
    ensures Newer(a, c)
  {
    if a.created == b.created == c.created {
      NameTransitive(c.name, b.name, a.name);
    }
  }

  // ----------------------------------------------------------------- the rule

  /** The candidate successes of all that are newer than b. */
  ghost function NewerSuccesses(all: set<Backup>, b: Backup): set<Backup>
  {
    set x | x in all && Candidate(x) && x.state.Succeeded? && Newer(x, b)
  }

  /** Which backups of a schedule expire: with a count of N at least 1, the
      candidates with N newer successes; with a window, the candidates created
      before the cutoff other than the newest success. */
  ghost predicate IsExpired(all: set<Backup>, r: Retention, b: Backup)
  {
    && b in all && Candidate(b)
    && match r
       case Forever => false
       case Unknown => false
       case Count(n) => n.Some? && n.value >= 1 && |NewerSuccesses(all, b)| >= n.value
       case Window(cutoff) =>
         && cutoff.Some? && b.created < cutoff.value
         && !(b.state.Succeeded? && NewerSuccesses(all, b) == {})
  }

  ghost function ExpiredSet(all: set<Backup>, r: Retention): set<Backup>
  {
    set b | b in all && IsExpired(all, r, b)
  }

  ghost predicate DistinctNames(backups: seq<Backup>)
  {
    forall i, j :: 0 <= i < j < |backups| ==> backups[i].name != backups[j].name
  }

  /** a was created after b, or in the same second with a name that is later: the
      first character that differs is greater, or b's is a proper prefix. */
  ghost predicate Later(a: Backup, b: Backup)
  {
    || a.created > b.created
    || (a.created == b.created &&
        exists i :: 0 <= i < |a.name| && i <= |b.name| && a.name[..i] == b.name[..i] && (i == |b.name| || b.name[i] < a.name[i]))
  }

  lemma {:induction false} NameLessIsLater(a: string, b: string)
    ensures NameLess(b, a) <==> exists i :: 0 <= i < |a| && i <= |b| && a[..i] == b[..i] && (i == |b| || b[i] < a[i])
  {
    if a != [] && b != [] && a[0] == b[0] {
      NameLessIsLater(a[1..], b[1..]);
      if NameLess(b, a) {
        var i :| 0 <= i < |a[1..]| && i <= |b[1..]| && a[1..][..i] == b[1..][..i] && (i == |b[1..]| || b[1..][i] < a[1..][i]);
        assert a[..i + 1] == [a[0]] + a[1..][..i] && b[..i + 1] == [b[0]] + b[1..][..i];
      }
      if i :| 0 <= i < |a| && i <= |b| && a[..i] == b[..i] && (i == |b| || b[i] < a[i]) {
        assert i > 0 && a[1..][..i - 1] == a[..i][1..] && b[1..][..i - 1] == b[..i][1..];
      }
    } else if a != [] {
      assert a[..0] == b[..0];
      forall i | 0 < i < |a| && i <= |b| ensures a[..i] != b[..i] {
        assert a[..i][0] != b[..i][0];
      }
    }
  }

  lemma NewerIsLater(a: Backup, b: Backup)
    ensures Newer(a, b) <==> Later(a, b)
  {
    NameLessIsLater(a.name, b.name);
  }

  /** The successes that are not being deleted and were created later. */
  ghost function LaterSuccesses(all: set<Backup>, b: Backup): set<Backup>
  {
    set x | x in all && !x.deleting && x.state == Succeeded && Later(x, b)
  }

  /** What expires, on the stored fields: a finished Backup that is not being deleted,
      for a count of N of at least 1 once N good ones are later, and for a window
      when it is before it, unless it is the last good one. */
  lemma ExpiredExactly(all: set<Backup>, r: Retention, b: Backup)
    ensures IsExpired(all, r, b) <==>
            && b in all && !b.deleting && b.state != Pending && b.state != Running
            && ((exists n :: r == Count(Some(n)) && n >= 1 && |LaterSuccesses(all, b)| >= n)
                || (exists t :: r == Window(Some(t)) && b.created < t && (b.state == Failed || LaterSuccesses(all, b) != {})))
  {
    forall x ensures Newer(x, b) <==> Later(x, b) {
      NewerIsLater(x, b);
    }
    assert NewerSuccesses(all, b) == LaterSuccesses(all, b);
  }

  // -------------------------------------------------------------- convergence

  /** Removing expired backups never lets another expired backup off: the N
      newer successes it needs can be taken among those that stay. */
  lemma {:induction false} EnoughSuccessesStay(all: set<Backup>, n: int, b: Backup, gone: set<Backup>)
    requires n >= 1 && |NewerSuccesses(all, b)| >= n
    requires forall d :: d in gone ==> d in all && |NewerSuccesses(all, d)| >= n
    ensures |NewerSuccesses(all, b) - gone| >= n
    decreases |NewerSuccesses(all, b)|
  {
    var g := NewerSuccesses(all, b);
    if d :| d in g && d in gone {
      var h := NewerSuccesses(all, d);
      NewerOrder(d, d);
      forall x | x in h ensures x in g {
        NewerTransitive(x, d, b);
      }
      assert d in g && d !in h;
      ProperSubset(h, g);
      EnoughSuccessesStay(all, n, d, gone);
      assert h - gone <= g - gone;
      SubsetSize(h - gone, g - gone);
    } else {
      assert g - gone == g;
    }
  }

  lemma {:induction false} SubsetSize<T>(a: set<T>, b: set<T>)
    requires a <= b
    ensures |a| <= |b|
    decreases a
  {
    if x :| x in a {
      SubsetSize(a - {x}, b - {x});
    }
  }

  lemma ProperSubset<T>(a: set<T>, b: set<T>)
    requires a < b
    ensures |a| < |b|
  {
    var x :| x in b && x !in a;
    SubsetSize(a, b - {x});
  }

  /** Retention converges: delete any part of what has expired, stop, and compute
      again. What expires then is exactly the rest, so however the deletes are
      interrupted the same backups are kept in the end. */
  lemma RetentionConverges(all: set<Backup>, r: Retention, gone: set<Backup>)
    requires gone <= ExpiredSet(all, r)
    ensures ExpiredSet(all - gone, r) == ExpiredSet(all, r) - gone
    ensures ExpiredSet(all - ExpiredSet(all, r), r) == {}
  {
    RetentionStep(all, r, gone);
    RetentionStep(all, r, ExpiredSet(all, r));
  }

  lemma RetentionStep(all: set<Backup>, r: Retention, gone: set<Backup>)
    requires gone <= ExpiredSet(all, r)
    ensures ExpiredSet(all - gone, r) == ExpiredSet(all, r) - gone
  {
    forall b | b in all - gone
      ensures IsExpired(all - gone, r, b) <==> IsExpired(all, r, b)
    {
      var before, after := NewerSuccesses(all, b), NewerSuccesses(all - gone, b);
      assert after == before - gone;
      SubsetSize(after, before);
      match r
      case Count(n) =>
        if n.Some? && n.value >= 1 && |before| >= n.value {
          EnoughSuccessesStay(all, n.value, b, gone);
        }
      case Window(cutoff) =>
        if before != {} {
          NewestSuccessStays(all, r, gone, b);
        }
      case _ =>
    }
  }

  /** The window rule keeps the newest success, so a backup with a newer success
      still has one after any expired backups are gone. */
  lemma NewestSuccessStays(all: set<Backup>, r: Retention, gone: set<Backup>, b: Backup)
    requires r.Window? && gone <= ExpiredSet(all, r)
    requires NewerSuccesses(all, b) != {}
    ensures NewerSuccesses(all - gone, b) != {}
  {
    var m := Newest(NewerSuccesses(all, b));
    forall y | y in all && Candidate(y) && y.state.Succeeded?
      ensures !Newer(y, m)
    {
      if Newer(y, m) {
        NewerTransitive(y, m, b);
      }
    }
    assert NewerSuccesses(all, m) == {};
    assert m in NewerSuccesses(all - gone, b);
  }

  lemma {:induction false} Newest(s: set<Backup>) returns (m: Backup)
    requires s != {}
    ensures m in s && forall y :: y in s ==> !Newer(y, m)
    decreases s
  {
    m :| m in s;
    if s == {m} {
      NewerOrder(m, m);
    } else {
      var rest := s - {m};
      var k := Newest(rest);
      if Newer(m, k) {
        forall y | y in s ensures !Newer(y, m) {
          if Newer(y, m) && y != m { NewerTransitive(y, m, k); }
          NewerOrder(m, m);
        }
      } else {
        forall y | y in s ensures !Newer(y, k) { }
        m := k;
      }
    }
  }

  // ------------------------------------------------------------- what is kept

  /** Time moving on, unfinished backups finishing and new ones appearing only
      add to what has expired, so deciding from an older list is safe. */
  lemma ExpiredStaysExpired(all: set<Backup>, later: set<Backup>, r: Retention, b: Backup)
    requires IsExpired(all, r, b) && b in later
    requires forall x :: x in all && Candidate(x) ==> x in later
    ensures IsExpired(later, r, b)
  {
    assert NewerSuccesses(all, b) <= NewerSuccesses(later, b);
    SubsetSize(NewerSuccesses(all, b), NewerSuccesses(later, b));
  }

  /** A later cutoff expires at least as much. */
  lemma LaterCutoffExpiresMore(all: set<Backup>, earlier: Time, later: Time, b: Backup)
    requires earlier <= later
    ensures IsExpired(all, Window(Some(earlier)), b) ==> IsExpired(all, Window(Some(later)), b)
  {
  }

  /** No rule expires a candidate that nothing succeeded after and that was
      created at or after the cutoff. */
  lemma FreshestIsKept(all: set<Backup>, r: Retention, b: Backup)
    requires NewerSuccesses(all, b) == {}
    requires r.Window? && r.cutoff.Some? ==> r.cutoff.value <= b.created || b.state.Succeeded?
    ensures !IsExpired(all, r, b)
  {
  }

  /** The successes a count of n keeps: those with fewer than n newer ones. */
  ghost function Leading(successes: set<Backup>, n: nat): set<Backup>
  {
    set b | b in successes && Rank(successes, b) < n
  }

  ghost predicate NamesDiffer(all: set<Backup>)
  {
    forall x, y :: x in all && y in all && x != y ==> x.name != y.name
  }

  ghost function AllSuccesses(all: set<Backup>): set<Backup>
  {
    set x | x in all && Candidate(x) && x.state.Succeeded?
  }

  ghost function Ahead(successes: set<Backup>, b: Backup): set<Backup>
  {
    set x | x in successes && Newer(x, b)
  }

  ghost function Rank(successes: set<Backup>, b: Backup): nat
  {
    |Ahead(successes, b)|
  }

  /** Taking the newest success away moves every other one up by one. */
  lemma RankWithoutNewest(successes: set<Backup>, m: Backup, b: Backup)
    requires m in successes && Newer(m, b)
    ensures Rank(successes, b) == Rank(successes - {m}, b) + 1
  {
    assert Ahead(successes, b) == Ahead(successes - {m}, b) + {m};
  }

  lemma LeadingWithoutNewest(successes: set<Backup>, m: Backup, n: nat)
    requires NamesDiffer(successes) && n >= 1 && m in successes
    requires forall y :: y in successes ==> !Newer(y, m)
    ensures Leading(successes, n) == Leading(successes - {m}, n - 1) + {m}
  {
    var rest := successes - {m};
    assert Ahead(successes, m) == {};
    assert Rank(successes, m) == 0;
    forall b | b in rest
      ensures Rank(successes, b) == Rank(rest, b) + 1
    {
      NewerOrder(m, b);
      RankWithoutNewest(successes, m, b);
    }
  }

  ghost predicate LeadingIsExact(successes: set<Backup>, n: nat)
  {
    |Leading(successes, n)| == if n < |successes| then n else |successes|
  }

  lemma LeadingStep(successes: set<Backup>, m: Backup, n: nat)
    requires NamesDiffer(successes) && n >= 1 && m in successes
    requires forall y :: y in successes ==> !Newer(y, m)
    requires LeadingIsExact(successes - {m}, n - 1)
    ensures LeadingIsExact(successes, n)
  {
    LeadingWithoutNewest(successes, m, n);
    AddedSize(Leading(successes - {m}, n - 1), m);
    AddedSize(successes - {m}, m);
    assert successes - {m} + {m} == successes;
  }

  lemma {:induction false} LeadingSize(successes: set<Backup>, n: nat)
    requires NamesDiffer(successes)
    ensures LeadingIsExact(successes, n)
    decreases |successes|
  {
    if successes == {} || n == 0 {
      assert Leading(successes, n) == {};
    } else {
      var m := Newest(successes);
      LeadingSize(successes - {m}, n - 1);
      LeadingStep(successes, m, n);
    }
  }

  lemma AddedSize<T>(s: set<T>, x: T)
    requires x !in s
    ensures |s + {x}| == |s| + 1
  {
  }

  /** Count retention is exact: of the successes exactly min(N, all) survive, and
      what survives is at least as new as every success that goes. Failures newer
      than the oldest survivor stay; a count of 0 or less expires nothing. */
  lemma CountKeepsTheNewest(all: set<Backup>, n: int)
    requires NamesDiffer(all)
    ensures n < 1 ==> ExpiredSet(all, Count(Some(n))) == {}
    ensures n >= 1 ==> var kept := AllSuccesses(all) - ExpiredSet(all, Count(Some(n)));
      && |kept| == (if n < |AllSuccesses(all)| then n else |AllSuccesses(all)|)
      && (forall k, x :: k in kept && x in ExpiredSet(all, Count(Some(n))) ==> Newer(k, x))
  {
    if n >= 1 {
      var kept := AllSuccesses(all) - ExpiredSet(all, Count(Some(n)));
      forall b | b in AllSuccesses(all)
        ensures b in kept <==> b in Leading(AllSuccesses(all), n)
      {
        assert NewerSuccesses(all, b) == Ahead(AllSuccesses(all), b);
      }
      assert kept == Leading(AllSuccesses(all), n);
      LeadingSize(AllSuccesses(all), n);
      forall k, x | k in kept && x in ExpiredSet(all, Count(Some(n)))
        ensures Newer(k, x)
      {
        NewerOrder(k, x);
        if Newer(x, k) {
          forall y | y in NewerSuccesses(all, x) ensures y in NewerSuccesses(all, k) {
            NewerTransitive(y, x, k);
          }
          SubsetSize(NewerSuccesses(all, x), NewerSuccesses(all, k));
        }
      }
    }
  }

  // ----------------------------------------------------------------- the code

  ghost function SetOf(backups: seq<Backup>): set<Backup>
  {
    set b | b in backups
  }

  /** Newest first, as sort.Slice leaves them. */
  ghost predicate Descending(f: seq<Backup>)
  {
    forall i, j :: 0 <= i < j < |f| ==> Newer(f[i], f[j])
  }

  function Insert(b: Backup, f: seq<Backup>): seq<Backup>
  {
    if f == [] then [b]
    else if Newer(f[0], b) then [f[0]] + Insert(b, f[1..])
    else [b] + f
  }

  function SortNewestFirst(f: seq<Backup>): seq<Backup>
  {
    if f == [] then [] else Insert(f[0], SortNewestFirst(f[1..]))
  }

  lemma {:induction false} InsertKeepsOrder(b: Backup, f: seq<Backup>)
    requires Descending(f) && forall x :: x in f ==> x.name != b.name
    ensures Descending(Insert(b, f))
    ensures forall x :: x in Insert(b, f) <==> x == b || x in f
  {
    if f != [] {
      NewerOrder(b, f[0]);
      if Newer(f[0], b) {
        InsertKeepsOrder(b, f[1..]);
        assert forall x :: x in f <==> x == f[0] || x in f[1..];
        forall j | 0 <= j < |Insert(b, f[1..])|
          ensures Newer(f[0], Insert(b, f[1..])[j])
        {
          assert Insert(b, f[1..])[j] in Insert(b, f[1..]);
        }
      } else {
        forall j | 0 <= j < |f| ensures Newer(b, f[j]) {
          if j > 0 { NewerTransitive(b, f[0], f[j]); }
        }
      }
    }
  }

  lemma {:induction false} SortIsNewestFirst(f: seq<Backup>)
    requires DistinctNames(f)
    ensures Descending(SortNewestFirst(f))
    ensures forall x :: x in SortNewestFirst(f) <==> x in f
  {
    if f != [] {
      SortIsNewestFirst(f[1..]);
      InsertKeepsOrder(f[0], SortNewestFirst(f[1..]));
      assert forall x :: x in f <==> x == f[0] || x in f[1..];
    }
  }

  ghost function Successes(f: seq<Backup>): set<Backup>
  {
    set x | x in f && x.state.Succeeded?
  }

  /** In the sorted candidates, the newer successes of an element are those before it. */
  lemma NewerSuccessesAreBefore(all: set<Backup>, f: seq<Backup>, j: nat)
    requires Descending(f) && j < |f|
    requires forall x :: x in f <==> x in all && Candidate(x)
    ensures NewerSuccesses(all, f[j]) == Successes(f[..j])
  {
    forall x | x in NewerSuccesses(all, f[j]) ensures x in f[..j] {
      var i :| 0 <= i < |f| && f[i] == x;
      assert i > j ==> Newer(f[j], f[i]);
      NewerOrder(f[i], f[j]);
    }
    forall x | x in f[..j] ensures Newer(x, f[j]) && x in f {
      var i :| 0 <= i < j && f[i] == x;
    }
  }

  lemma SuccessesGrow(f: seq<Backup>, i: nat)
    requires Descending(f) && i < |f|
    ensures |Successes(f[..i + 1])| == |Successes(f[..i])| + if f[i].state.Succeeded? then 1 else 0
    ensures f[i].state.Succeeded? ==> Successes(f[..i + 1]) != {}
  {
    assert f[..i + 1] == f[..i] + [f[i]];
    if f[i] in f[..i] {
      var k :| 0 <= k < i && f[k] == f[i];
      NewerOrder(f[k], f[i]);
    }
    if f[i].state.Succeeded? {
      assert Successes(f[..i + 1]) == Successes(f[..i]) + {f[i]};
    } else {
      assert Successes(f[..i + 1]) == Successes(f[..i]);
    }
  }

  lemma SuccessesMonotone(f: seq<Backup>, i: nat, j: nat)
    requires i <= j <= |f|
    ensures Successes(f[..i]) <= Successes(f[..j])
    ensures |Successes(f[..i])| <= |Successes(f[..j])|
  {
    assert forall x :: x in f[..i] ==> x in f[..j];
    SubsetSize(Successes(f[..i]), Successes(f[..j]));
  }

  /** The finished backups that fall outside retention, whatever order they are listed in. */
  method ExpiredBackups(backups: seq<Backup>, retention: Retention) returns (r: Result)
    requires DistinctNames(backups)
    ensures r.Invalid? <==> retention == Count(None) || retention == Window(None) || retention.Unknown?
    ensures r.Expired? ==> forall b :: b in r.backups <==> IsExpired(SetOf(backups), retention, b)
    ensures r.Expired? ==> DistinctNames(r.backups)
  {
    if retention.Forever? {
      return Expired([]);
    }
    ghost var all := SetOf(backups);
    var finished: seq<Backup> := [];
    for i := 0 to |backups|
      invariant forall x :: x in finished <==> x in backups[..i] && Candidate(x)
      invariant DistinctNames(finished)
    {
      assert backups[..i + 1] == backups[..i] + [backups[i]];
      if Candidate(backups[i]) {
        forall k | 0 <= k < |finished| ensures finished[k].name != backups[i].name {
          assert finished[k] in backups[..i];
        }
        finished := finished + [backups[i]];
      }
    }
    assert backups[..|backups|] == backups;
    SortIsNewestFirst(finished);
    finished := SortNewestFirst(finished);
    assert forall x :: x in finished <==> x in all && Candidate(x);

    match retention
    case Count(count) =>
      if count.None? {
        return Invalid;
      }
      var expired := ExpiredByCount(all, finished, count.value);
      DistinctFromSet(expired, backups);
      return Expired(expired);
    case Window(cutoff) =>
      if cutoff.None? {
        return Invalid;
      }
      var expired := ExpiredByWindow(all, finished, cutoff.value);
      DistinctFromSet(expired, backups);
      return Expired(expired);
    case _ =>
      return Invalid;
  }

  lemma DescendingIsDistinct(f: seq<Backup>)
    requires Descending(f)
    ensures forall i, j :: 0 <= i < j < |f| ==> f[i] != f[j]
  {
    forall i, j | 0 <= i < j < |f| ensures f[i] != f[j] {
      NewerOrder(f[i], f[j]);
    }
  }

  lemma DistinctFromSet(f: seq<Backup>, all: seq<Backup>)
    requires Descending(f) && DistinctNames(all) && forall x :: x in f ==> x in all
    ensures DistinctNames(f)
  {
    forall i, j | 0 <= i < j < |f| ensures f[i].name != f[j].name {
      assert f[i] in all && f[j] in all;
      NewerOrder(f[i], f[j]);
    }
  }

  method ExpiredByCount(ghost all: set<Backup>, finished: seq<Backup>, count: int) returns (expired: seq<Backup>)
    requires Descending(finished)
    requires forall x :: x in finished <==> x in all && Candidate(x)
    ensures forall b :: b in expired <==> IsExpired(all, Count(Some(count)), b)
    ensures Descending(expired)
  {
    var succeeded := 0;
    for i := 0 to |finished|
      invariant succeeded == |Successes(finished[..i])|
      invariant count < 1 || succeeded < count
    {
      SuccessesGrow(finished, i);
      if finished[i].state.Succeeded? {
        succeeded := succeeded + 1;
        if succeeded == count {
          CountSplit(all, finished, count, i);
          return finished[i + 1..];
        }
      }
    }
    assert finished[..|finished|] == finished;
    NoneExpired(all, finished, count);
    return [];
  }

  lemma CountSplit(all: set<Backup>, f: seq<Backup>, n: int, i: nat)
    requires Descending(f) && i < |f| && n >= 1
    requires forall x :: x in f <==> x in all && Candidate(x)
    requires |Successes(f[..i])| == n - 1 && |Successes(f[..i + 1])| == n
    ensures forall b :: b in f[i + 1..] <==> IsExpired(all, Count(Some(n)), b)
  {
    forall j | 0 <= j < |f|
      ensures IsExpired(all, Count(Some(n)), f[j]) <==> j > i
    {
      assert f[j] in f;
      NewerSuccessesAreBefore(all, f, j);
      if j > i { SuccessesMonotone(f, i + 1, j); } else { SuccessesMonotone(f, j, i); }
    }
    DescendingIsDistinct(f);
    forall b ensures b in f[i + 1..] <==> IsExpired(all, Count(Some(n)), b) {
      if b in f[i + 1..] {
        var j :| 0 <= j < |f[i + 1..]| && f[i + 1..][j] == b;
        assert f[i + 1 + j] == b;
      }
      if IsExpired(all, Count(Some(n)), b) {
        var j :| 0 <= j < |f| && f[j] == b;
        assert f[i + 1..][j - i - 1] == b;
      }
    }
  }

  lemma NoneExpired(all: set<Backup>, f: seq<Backup>, n: int)
    requires Descending(f)
    requires forall x :: x in f <==> x in all && Candidate(x)
    requires n < 1 || |Successes(f)| < n
    ensures forall b :: !IsExpired(all, Count(Some(n)), b)
  {
    forall b ensures !IsExpired(all, Count(Some(n)), b) {
      if b in all && Candidate(b) {
        var j :| 0 <= j < |f| && f[j] == b;
        NewerSuccessesAreBefore(all, f, j);
        SuccessesMonotone(f, j, |f|);
        assert f[..|f|] == f;
      }
    }
  }

  /** A window's decision on the next backup of the sorted list. */
  lemma WindowDecides(all: set<Backup>, f: seq<Backup>, i: nat, cutoff: Time)
    requires Descending(f) && i < |f|
    requires forall x :: x in f <==> x in all && Candidate(x)
    ensures IsExpired(all, Window(Some(cutoff)), f[i]) <==>
            f[i].created < cutoff && !(f[i].state.Succeeded? && Successes(f[..i]) == {})
    ensures Successes(f[..i + 1]) == {} <==> Successes(f[..i]) == {} && !f[i].state.Succeeded?
  {
    assert f[i] in f;
    NewerSuccessesAreBefore(all, f, i);
    SuccessesGrow(f, i);
  }

  lemma StillDescending(f: seq<Backup>, i: nat, taken: seq<Backup>)
    requires Descending(f) && i < |f| && Descending(taken)
    requires forall b :: b in taken ==> b in f[..i]
    ensures Descending(taken + [f[i]])
  {
    forall k | 0 <= k < |taken| ensures Newer(taken[k], f[i]) {
      assert taken[k] in taken;
    }
  }

  method ExpiredByWindow(ghost all: set<Backup>, finished: seq<Backup>, cutoff: Time) returns (expired: seq<Backup>)
    requires Descending(finished)
    requires forall x :: x in finished <==> x in all && Candidate(x)
    ensures forall b :: b in expired <==> IsExpired(all, Window(Some(cutoff)), b)
    ensures Descending(expired)
  {
    var newestSucceeded := true;
    expired := [];
    for i := 0 to |finished|
      invariant newestSucceeded <==> Successes(finished[..i]) == {}
      invariant forall b :: b in expired <==> b in finished[..i] && IsExpired(all, Window(Some(cutoff)), b)
      invariant Descending(expired)
    {
      WindowDecides(all, finished, i, cutoff);
      StillDescending(finished, i, expired);
      assert finished[..i + 1] == finished[..i] + [finished[i]];
      var b := finished[i];
      var keep := b.created >= cutoff;
      if b.state.Succeeded? && newestSucceeded {
        keep, newestSucceeded := true, false;
      }
      if !keep {
        expired := expired + [b];
      }
    }
    assert finished[..|finished|] == finished;
  }
}
