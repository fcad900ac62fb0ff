/** A decoded config file: tables in tables, edited in place. What is said of it
    is said of the path to every key. */
module NestedTables {
  import opened Wrappers

  datatype Value = Text(text: string) | Size(mib: nat) | Flag(on: bool)

  /** A table's entry: a value, or another table by its identity. */
  datatype Cell = Val(value: Value) | Ref(id: nat)

  /** What a path leads to. */
  datatype Content = Leaf(value: Value) | Table

  type Path = seq<string>
  type View = imap<Path, Content>

  type Heap = map<nat, map<string, Cell>>

  // ------------------------------------------------------------- what is stored

  predicate Prefix(p: Path, q: Path)
  {
    p <= q
  }

  /** Every table but the root, 0, is an entry of at most one other. */
  ghost predicate Tree(h: Heap)
  {
    && 0 in h
    && (forall x, k :: x in h && k in h[x] && h[x][k].Ref? ==> h[x][k].id in h && h[x][k].id != 0)
    && (forall x, k, y, l :: x in h && k in h[x] && h[x][k].Ref? && y in h && l in h[y] && h[y][l] == h[x][k] ==> x == y && k == l)
  }

  function Walk(h: Heap, p: Path): Option<Cell>
    decreases |p|
  {
    if p == [] then Some(Ref(0))
    else
      var from := Walk(h, p[..|p| - 1]);
      var k := p[|p| - 1];
      if from.Some? && from.value.Ref? && from.value.id in h && k in h[from.value.id]
      then Some(h[from.value.id][k])
      else None
  }

  function ContentOf(c: Cell): Content
  {
    if c.Val? then Leaf(c.value) else Table
  }

  ghost function ViewOf(h: Heap): View
  {
    imap p: Path | Walk(h, p).Some? :: ContentOf(Walk(h, p).value)
  }

  /** Whatever has a key is a table. */
  ghost predicate Consistent(v: View)
  {
    && [] in v && v[[]] == Table
    && forall p: Path :: p in v && p != [] ==> p[..|p| - 1] in v && v[p[..|p| - 1]] == Table
  }

  lemma ViewIsConsistent(h: Heap)
    ensures Consistent(ViewOf(h))
  {
  }

  /** One path leads to one table. */
  lemma {:induction false} OnePath(h: Heap, p: Path, q: Path, x: nat)
    requires Tree(h) && Walk(h, p) == Some(Ref(x)) && Walk(h, q) == Some(Ref(x))
    ensures p == q
    decreases |p|
  {
    if p != [] && q != [] {
      var p0, q0 := p[..|p| - 1], q[..|q| - 1];
      assert p == p0 + [p[|p| - 1]] && q == q0 + [q[|q| - 1]];
      OnePath(h, p0, q0, Walk(h, p0).value.id);
    }
  }

  lemma {:induction false} WalksInside(h: Heap, p: Path)
    requires Tree(h) && Walk(h, p).Some? && Walk(h, p).value.Ref?
    ensures Walk(h, p).value.id in h
  {
  }

  // --------------------------------------------------------------- one write

  /** The view after something new is stored at a path. */
  ghost function PutAt(v: View, p: Path, c: Content): View
  {
    imap q: Path | q == p || (!Prefix(p, q) && q in v) :: if q == p then c else v[q]
  }

  function Written(h: Heap, x: nat, k: string, c: Cell): Heap
    requires x in h
  {
    if c.Ref? then h[x := h[x][k := c]][c.id := map[]] else h[x := h[x][k := c]]
  }

  /** Writing an entry of one table changes what its path leads to, and drops
      what was below; a new table is empty. */
  lemma {:induction false} WriteWalks(h: Heap, p: Path, x: nat, k: string, c: Cell, q: Path)
    requires Tree(h) && Walk(h, p) == Some(Ref(x)) && x in h
    requires c.Ref? ==> c.id !in h
    ensures Walk(Written(h, x, k, c), q) == if q == p + [k] then Some(c) else if Prefix(p + [k], q) then None else Walk(h, q)
    decreases |q|
  {
    if q != [] {
      var q0, l := q[..|q| - 1], q[|q| - 1];
      assert q == q0 + [l];
      WriteWalks(h, p, x, k, c, q0);
      if q == p + [k] {
        assert q0 == p && !Prefix(p + [k], q0);
      } else if Prefix(p + [k], q) {
        assert Prefix(p + [k], q0);
      } else {
        assert !Prefix(p + [k], q0);
        if Walk(h, q0) == Some(Ref(x)) {
          OnePath(h, p, q0, x);
        } else if Walk(h, q0).Some? && Walk(h, q0).value.Ref? {
          WalksInside(h, q0);
        }
      }
    }
  }

  lemma WriteViews(h: Heap, p: Path, x: nat, k: string, c: Cell)
    requires Tree(h) && Walk(h, p) == Some(Ref(x)) && x in h
    requires c.Ref? ==> c.id !in h
    ensures ViewOf(Written(h, x, k, c)) == PutAt(ViewOf(h), p + [k], ContentOf(c))
  {
    var v, w := ViewOf(Written(h, x, k, c)), PutAt(ViewOf(h), p + [k], ContentOf(c));
    forall q: Path ensures (q in v <==> q in w) && (q in v ==> v[q] == w[q]) {
      WriteWalks(h, p, x, k, c, q);
    }
    assert v == w;
  }

  lemma WriteIsTree(h: Heap, x: nat, k: string, c: Cell)
    requires Tree(h) && x in h
    requires c.Ref? ==> c.id !in h
    ensures Tree(Written(h, x, k, c))
  {
    var h': Heap := Written(h, x, k, c);
    forall y: nat, l: string | y in h' && l in h'[y] && h'[y][l].Ref? && h'[y][l] != c ensures y in h && l in h[y] && h'[y][l] == h[y][l] { }
  }

  // ------------------------------------------------------------- setting a key

  /** The first n keys of the path lead to tables, put there where they do not. */
  ghost function WithTables(v: View, key: Path, n: nat): View
    requires n <= |key|
  {
    if n == 0 then v
    else
      var w := WithTables(v, key, n - 1);
      if key[..n] in w && w[key[..n]] == Table then w else PutAt(w, key[..n], Table)
  }

  ghost function SetView(v: View, key: Path, value: Value): View
    requires key != []
  {
    PutAt(WithTables(v, key, |key| - 1), key, Leaf(value))
  }

  lemma NextTable(v: View, key: Path, n: nat)
    requires n < |key|
    ensures key[..n] + [key[n]] == key[..n + 1]
    ensures var w, q := WithTables(v, key, n), key[..n] + [key[n]];
      WithTables(v, key, n + 1) == if q in w && w[q] == Table then w else PutAt(w, q, Table)
  {
    assert key[..n] + [key[n]] == key[..n + 1];
  }

  lemma {:induction false} TablesAt(v: View, key: Path, n: nat, q: Path)
    requires Consistent(v) && n <= |key|
    ensures var w := WithTables(v, key, n);
      && (Prefix(q, key) && |q| <= n ==> q in w && w[q] == Table)
      && (!(Prefix(q, key) && |q| <= n) ==> (q in w ==> q in v && w[q] == v[q]))
      && (!(Prefix(q, key) && |q| <= n) ==> (q in v ==> q in w && w[q] == v[q]))
  {
    if n > 0 {
      TablesAt(v, key, n - 1, q);
      TablesAt(v, key, n - 1, key[..n]);
      if Prefix(key[..n], q) && q != key[..n] && q in v {
        Above(v, key[..n], q);
      }
    }
  }

  /** Everything on the way to a key is a table. */
  lemma {:induction false} Above(v: View, p: Path, q: Path)
    requires Consistent(v) && q in v && Prefix(p, q) && p != q
    ensures p in v && v[p] == Table
    decreases |q|
  {
    if p != q[..|q| - 1] {
      Above(v, p, q[..|q| - 1]);
    }
  }

  /** Setting a key, at every path: the key has the value and nothing below it,
      all above it are tables, and everything else is as it was. */
  lemma SetViewAt(v: View, key: Path, value: Value, q: Path)
    requires Consistent(v) && key != []
    ensures var w := SetView(v, key, value);
      && (q == key ==> q in w && w[q] == Leaf(value))
      && (Prefix(q, key) && q != key ==> q in w && w[q] == Table)
      && (Prefix(key, q) && q != key ==> q !in w)
      && (!Prefix(q, key) && !Prefix(key, q) ==> (q in w <==> q in v) && (q in v ==> w[q] == v[q]))
  {
    TablesAt(v, key, |key| - 1, q);
  }

  lemma SetViewConsistent(v: View, key: Path, value: Value)
    requires Consistent(v) && key != []
    ensures Consistent(SetView(v, key, value))
  {
    var w := SetView(v, key, value);
    SetViewAt(v, key, value, []);
    forall p: Path | p in w && p != [] ensures p[..|p| - 1] in w && w[p[..|p| - 1]] == Table {
      SetViewAt(v, key, value, p);
      SetViewAt(v, key, value, p[..|p| - 1]);
    }
  }

  /** All the user's values stay, but for the key's own. */
  ghost predicate Keeps(v: View, w: View, key: Path)
  {
    forall q: Path :: q in v && v[q].Leaf? && q != key ==> q in w && w[q] == v[q]
  }

  /** Exactly when setting an absent key keeps all values: what is on the way to
      it are tables or absent. A value in the way is replaced by a table. */
  lemma SettingKeepsExactly(v: View, key: Path, value: Value)
    requires Consistent(v) && key != [] && key !in v
    ensures Keeps(v, SetView(v, key, value), key) <==>
            forall n: nat :: n < |key| && key[..n] in v ==> v[key[..n]] == Table
  {
    var w := SetView(v, key, value);
    forall n: nat | n < |key| && key[..n] in v && v[key[..n]] != Table ensures !Keeps(v, w, key) {
      SetViewAt(v, key, value, key[..n]);
      assert key[..n] != key;
    }
    if forall n: nat :: n < |key| && key[..n] in v ==> v[key[..n]] == Table {
      forall q: Path | q in v && v[q].Leaf? && q != key ensures q in w && w[q] == v[q] {
        SetViewAt(v, key, value, q);
        if Prefix(q, key) { assert q == key[..|q|]; }
        if Prefix(key, q) { Above(v, key, q); }
      }
    }
  }

  // --------------------------------------------------------- setting many keys

  type Setting = (Path, Value)

  ghost function SetAll(v: View, settings: seq<Setting>): View
    requires forall i :: 0 <= i < |settings| ==> settings[i].0 != []
    decreases |settings|
  {
    if settings == [] then v else SetAll(SetView(v, settings[0].0, settings[0].1), settings[1..])
  }

  lemma SetAllOne(v: View, s: Setting)
    requires s.0 != []
    ensures SetAll(v, [s]) == SetView(v, s.0, s.1)
  {
    assert SetAll(v, [s]) == SetAll(SetView(v, s.0, s.1), [s][1..]);
  }

  lemma {:induction false} SetAllAppend(v: View, a: seq<Setting>, b: seq<Setting>)
    requires forall i :: 0 <= i < |a| ==> a[i].0 != []
    requires forall i :: 0 <= i < |b| ==> b[i].0 != []
    ensures SetAll(v, a + b) == SetAll(SetAll(v, a), b)
    decreases |a|
  {
    if a == [] {
      assert a + b == b;
    } else {
      assert (a + b)[1..] == a[1..] + b;
      SetAllAppend(SetView(v, a[0].0, a[0].1), a[1..], b);
    }
  }

  lemma {:induction false} SetAllConsistent(v: View, settings: seq<Setting>)
    requires Consistent(v) && forall i :: 0 <= i < |settings| ==> settings[i].0 != []
    ensures Consistent(SetAll(v, settings))
    decreases |settings|
  {
    if settings != [] {
      SetViewConsistent(v, settings[0].0, settings[0].1);
      SetAllConsistent(SetView(v, settings[0].0, settings[0].1), settings[1..]);
    }
  }

  /** None of the keys is on the way to another. */
  ghost predicate Apart(settings: seq<Setting>)
  {
    && (forall i :: 0 <= i < |settings| ==> settings[i].0 != [])
    && forall i, j :: 0 <= i < |settings| && 0 <= j < |settings| && i != j ==> !Prefix(settings[i].0, settings[j].0)
  }

  /** What is on the way to the key are tables or absent. */
  ghost predicate Clear(v: View, key: Path)
  {
    forall n: nat :: n < |key| && key[..n] in v ==> v[key[..n]] == Table
  }

  /** No key is above or below the path. */
  ghost predicate Aside(settings: seq<Setting>, q: Path)
  {
    forall i :: 0 <= i < |settings| ==> !Prefix(settings[i].0, q) && !Prefix(q, settings[i].0)
  }

  /** A key's value, and the tables above it, survive the other settings. */
  lemma {:induction false} SetAllAt(v: View, settings: seq<Setting>, i: nat, q: Path)
    requires Consistent(v) && Apart(settings) && i < |settings| && Prefix(q, settings[i].0)
    ensures var w := SetAll(v, settings);
      q in w && w[q] == if q == settings[i].0 then Leaf(settings[i].1) else Table
    decreases |settings|
  {
    var u := SetView(v, settings[0].0, settings[0].1);
    SetViewConsistent(v, settings[0].0, settings[0].1);
    if i > 0 {
      assert settings[1..][i - 1] == settings[i];
      SetAllAt(u, settings[1..], i - 1, q);
    } else {
      SetViewAt(v, settings[0].0, settings[0].1, q);
      SetAllKeepsFirst(u, settings[1..], settings[0].0, q);
    }
  }

  lemma {:induction false} SetAllKeepsFirst(v: View, settings: seq<Setting>, key: Path, q: Path)
    requires Consistent(v) && Apart(settings) && Prefix(q, key) && q in v && (q == key || v[q] == Table)
    requires forall i :: 0 <= i < |settings| ==> !Prefix(settings[i].0, key) && !Prefix(key, settings[i].0)
    ensures var w := SetAll(v, settings); q in w && w[q] == v[q]
    decreases |settings|
  {
    if settings != [] {
      SetViewConsistent(v, settings[0].0, settings[0].1);
      SetViewAt(v, settings[0].0, settings[0].1, q);
      SetAllKeepsFirst(SetView(v, settings[0].0, settings[0].1), settings[1..], key, q);
    }
  }

  /** Everything that is not above or below a key is as it was. */
  lemma {:induction false} SetAllAside(v: View, settings: seq<Setting>, q: Path)
    requires Consistent(v) && Apart(settings) && Aside(settings, q)
    ensures var w := SetAll(v, settings); (q in w <==> q in v) && (q in v ==> w[q] == v[q])
    decreases |settings|
  {
    if settings != [] {
      SetViewConsistent(v, settings[0].0, settings[0].1);
      SetViewAt(v, settings[0].0, settings[0].1, q);
      SetAllAside(SetView(v, settings[0].0, settings[0].1), settings[1..], q);
    }
  }

  /** The whole of v is still there. */
  ghost predicate Within(v: View, w: View)
  {
    forall q: Path :: q in v ==> q in w && w[q] == v[q]
  }

  /** Exactly when setting absent keys only adds to a config. */
  lemma SetAllAddsExactly(v: View, settings: seq<Setting>)
    requires Consistent(v) && Apart(settings)
    requires forall i :: 0 <= i < |settings| ==> settings[i].0 !in v
    ensures Within(v, SetAll(v, settings)) <==> forall i :: 0 <= i < |settings| ==> Clear(v, settings[i].0)
  {
    var w := SetAll(v, settings);
    forall i, n: nat | 0 <= i < |settings| && n < |settings[i].0| && settings[i].0[..n] in v && v[settings[i].0[..n]] != Table
      ensures !Within(v, w)
    {
      SetAllAt(v, settings, i, settings[i].0[..n]);
    }
    if forall i :: 0 <= i < |settings| ==> Clear(v, settings[i].0) {
      forall q: Path | q in v ensures q in w && w[q] == v[q] {
        if i :| 0 <= i < |settings| && Prefix(settings[i].0, q) {
          Above(v, settings[i].0, q);
        } else if i :| 0 <= i < |settings| && Prefix(q, settings[i].0) {
          SetAllAt(v, settings, i, q);
          assert q == settings[i].0[..|q|];
        } else {
          SetAllAside(v, settings, q);
        }
      }
    }
  }

  // ----------------------------------------------------------------- the code

  class Config {
    var tables: Heap
    var made: nat

    ghost predicate Valid()
      reads this
    {
      Tree(tables) && forall x :: x in tables ==> x < made
    }

    ghost function View(): View
      reads this
    {
      ViewOf(tables)
    }

    method HasKey(key: Path) returns (has: bool)
      requires Valid() && key != []
      ensures has <==> key in View()
    {
      var cfg := 0;
      for i := 0 to |key|
        invariant cfg in tables && Walk(tables, key[..i]) == Some(Ref(cfg))
        invariant i == |key| ==> key in View()
      {
        assert key[..i + 1][..i] == key[..i];
        if key[i] !in tables[cfg] {
          Missing(tables, key, i + 1);
          return false;
        }
        var v := tables[cfg][key[i]];
        assert Walk(tables, key[..i + 1]) == Some(v);
        if i == |key| - 1 {
          assert key[..i + 1] == key;
          return true;
        }
        if v.Val? {
          assert key[..i + 2][..i + 1] == key[..i + 1];
          Missing(tables, key, i + 2);
          return false;
        }
        cfg := v.id;
      }
      return true;
    }

    /** The table under a key of the table at p, made where there is none. */
    method Enter(ghost p: Path, cfg: nat, k: string) returns (next: nat)
      requires Valid() && cfg in tables && Walk(tables, p) == Some(Ref(cfg))
      modifies this
      ensures Valid() && next in tables && Walk(tables, p + [k]) == Some(Ref(next))
      ensures var v, q := old(View()), p + [k];
        View() == if q in v && v[q] == Table then v else PutAt(v, q, Table)
    {
      assert (p + [k])[..|p|] == p;
      if k in tables[cfg] && tables[cfg][k].Ref? {
        return tables[cfg][k].id;
      }
      ghost var before := tables;
      next := made;
      made := made + 1;
      tables := tables[cfg := tables[cfg][k := Ref(next)]][next := map[]];
      WriteIsTree(before, cfg, k, Ref(next));
      WriteViews(before, p, cfg, k, Ref(next));
      WriteWalks(before, p, cfg, k, Ref(next), p + [k]);
    }

    method Store(ghost p: Path, cfg: nat, k: string, value: Value)
      requires Valid() && cfg in tables && Walk(tables, p) == Some(Ref(cfg))
      modifies this`tables
      ensures Valid() && View() == PutAt(old(View()), p + [k], Leaf(value))
    {
      ghost var before := tables;
      tables := tables[cfg := tables[cfg][k := Val(value)]];
      WriteIsTree(before, cfg, k, Val(value));
      WriteViews(before, p, cfg, k, Val(value));
    }

    /** Sets a key, making tables on the way to it. */
    method SetKey(key: Path, value: Value)
      requires Valid() && key != []
      modifies this
      ensures Valid() && View() == SetView(old(View()), key, value)
    {
      var cfg := 0;
      ghost var v := View();
      for i := 0 to |key| - 1
        invariant Valid() && cfg in tables && Walk(tables, key[..i]) == Some(Ref(cfg))
        invariant View() == WithTables(v, key, i)
      {
        NextTable(v, key, i);
        cfg := Enter(key[..i], cfg, key[i]);
      }
      assert key[..|key| - 1] + [key[|key| - 1]] == key && View() == WithTables(v, key, |key| - 1);
      Store(key[..|key| - 1], cfg, key[|key| - 1], value);
    }
  }

  /** What leads nowhere leads no further. */
  lemma {:induction false} Missing(h: Heap, key: Path, n: nat)
    requires n <= |key| && Walk(h, key[..n]).None?
    ensures Walk(h, key).None?
    decreases |key| - n
  {
    if n < |key| {
      assert key[..n + 1][..n] == key[..n];
      Missing(h, key, n + 1);
    } else {
      assert key[..n] == key;
    }
  }
}
