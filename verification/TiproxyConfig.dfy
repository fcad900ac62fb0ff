/** Making TiProxy accept clients without a certificate, in its config file. */
module TiproxyConfig {
  import opened Wrappers
  import opened NestedTables

  const SKIP_CA: Path := ["security", "server-tls", "skip-ca"]

  /** What is set: nothing when the user sets the key, or has something else than
      a table on the way to it. */
  ghost function Settings(key: Path, v: View): (s: seq<Setting>)
    requires key != []
    ensures Apart(s)
  {
    if key in v || !Clear(v, key) then [] else [(key, Flag(true))]
  }

  ghost function Edit(key: Path, v: View): View
    requires key != []
  {
    SetAll(v, Settings(key, v))
  }

  /** Whatever the user's config holds stays, and the key is set if it can be. */
  lemma EditOnlyAdds(key: Path, v: View)
    requires Consistent(v) && key != []
    ensures Within(v, Edit(key, v))
    ensures key in Edit(key, v) <==> key in v || Clear(v, key)
    ensures key !in v && key in Edit(key, v) ==> Edit(key, v)[key] == Leaf(Flag(true))
  {
    if Settings(key, v) != [] {
      SetAllAddsExactly(v, Settings(key, v));
      SetAllAt(v, Settings(key, v), 0, key);
    }
  }

  lemma EditIsIdempotent(key: Path, v: View)
    requires Consistent(v) && key != []
    ensures Edit(key, Edit(key, v)) == Edit(key, v)
  {
    EditOnlyAdds(key, v);
  }

  /** The way to a key of three, one table at a time. */
  lemma ClearByTables(key: Path, v: View)
    requires Consistent(v) && |key| == 3
    ensures Clear(v, key) <==>
            (key[..1] in v ==> v[key[..1]] == Table) && (key[..2] in v ==> v[key[..2]] == Table)
  {
    assert key[..0] == [];
    if (key[..1] in v ==> v[key[..1]] == Table) && (key[..2] in v ==> v[key[..2]] == Table) {
      forall n: nat | n < |key| && key[..n] in v ensures v[key[..n]] == Table {
        assert n == 0 || n == 1 || n == 2;
      }
    }
  }

  // ----------------------------------------------------------------- the code

  /** The table under a key of the table at p, added empty if there is none; not
      ok when the key holds something else. */
  method SubTable(cfg: Config, ghost p: Path, parent: nat, key: string) returns (table: nat, ok: bool)
    requires cfg.Valid() && parent in cfg.tables && Walk(cfg.tables, p) == Some(Ref(parent))
    modifies cfg
    ensures ok <==> (p + [key] in old(cfg.View()) ==> old(cfg.View())[p + [key]] == Table)
    ensures cfg.Valid() && (ok ==> table in cfg.tables && Walk(cfg.tables, p + [key]) == Some(Ref(table)))
    ensures cfg.View() ==
            if p + [key] in old(cfg.View()) then old(cfg.View()) else PutAt(old(cfg.View()), p + [key], Table)
  {
    assert (p + [key])[..|p|] == p;
    if key in cfg.tables[parent] && cfg.tables[parent][key].Val? {
      return 0, false;
    }
    table := cfg.Enter(p, parent, key);
    return table, true;
  }

  /** Sets skip-ca; false when the config is to stay as the user wrote it. */
  method WithOptionalClientCerts(cfg: Config) returns (changed: bool)
    requires cfg.Valid()
    modifies cfg
    ensures cfg.Valid()
    ensures changed <==> Settings(SKIP_CA, old(cfg.View())) != []
    ensures changed ==> cfg.View() == Edit(SKIP_CA, old(cfg.View()))
  {
    changed := SetFlag(cfg, SKIP_CA);
  }

  /** On the way to a key of three. */
  lemma OnTheWay(key: Path, v: View)
    requires Consistent(v) && |key| == 3
    ensures key[..1] == [] + [key[0]] && key[..2] == key[..1] + [key[1]] && key == key[..2] + [key[2]]
    ensures var w := WithTables(v, key, 1);
      && w == (if key[..1] in v && v[key[..1]] == Table then v else PutAt(v, key[..1], Table))
      && (key[..2] in w <==> key[..2] in v) && (key[..2] in v ==> w[key[..2]] == v[key[..2]])
    ensures key in WithTables(v, key, 2) <==> key in v
    ensures SetView(v, key, Flag(true)) == PutAt(WithTables(v, key, 2), key, Leaf(Flag(true)))
  {
    assert key[..0] == [];
    NextTable(v, key, 0);
    NextTable(v, key, 1);
    TablesAt(v, key, 1, key[..2]);
    TablesAt(v, key, 2, key);
    assert key[..2] + [key[2]] == key && key[..|key| - 1] == key[..2];
  }

  method SetFlag(cfg: Config, key: Path) returns (changed: bool)
    requires cfg.Valid() && |key| == 3
    modifies cfg
    ensures cfg.Valid()
    ensures changed <==> Settings(key, old(cfg.View())) != []
    ensures changed ==> cfg.View() == Edit(key, old(cfg.View()))
  {
    ghost var v := cfg.View();
    ViewIsConsistent(cfg.tables);
    ClearByTables(key, v);
    OnTheWay(key, v);
    var security, ok := SubTable(cfg, [], 0, key[0]);
    if !ok {
      return false;
    }
    assert cfg.View() == WithTables(v, key, 1);
    var serverTls;
    serverTls, ok := SubTable(cfg, key[..1], security, key[1]);
    if !ok {
      return false;
    }
    NextTable(v, key, 1);
    assert cfg.View() == WithTables(v, key, 2);
    KeyInTable(cfg.tables, key[..2], serverTls, key[2]);
    if key[2] in cfg.tables[serverTls] {
      return false;
    }
    SetAllOne(v, (key, Flag(true)));
    cfg.Store(key[..2], serverTls, key[2], Flag(true));
    return true;
  }

  lemma KeyInTable(h: Heap, p: Path, x: nat, k: string)
    requires Walk(h, p) == Some(Ref(x)) && x in h
    ensures p + [k] in ViewOf(h) <==> k in h[x]
  {
    assert (p + [k])[..|p|] == p;
  }
}
