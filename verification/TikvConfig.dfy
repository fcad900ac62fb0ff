/** TiKV's memory settings and disk reserve, put into the user's config file where
    the user sets none of them. */
module TikvConfig {
  import opened Wrappers
  import opened NestedTables
  import opened TikvSizing

  /** The settings the provider makes, by their keys. */
  datatype Keys = Keys(blockCache: Path, writeBuffers: Path, usageLimit: Path, reserveSpace: Path)

  const TIKV_KEYS := Keys(["storage", "block-cache", "capacity"], ["rocksdb", "write-buffer-limit"],
                         ["memory-usage-limit"], ["storage", "reserve-space"])

  /** No key is on the way to another. */
  predicate ApartKeys(ks: Keys)
  {
    && ApartFrom(ks.blockCache, [ks.writeBuffers, ks.usageLimit, ks.reserveSpace])
    && ApartFrom(ks.writeBuffers, [ks.blockCache, ks.usageLimit, ks.reserveSpace])
    && ApartFrom(ks.usageLimit, [ks.blockCache, ks.writeBuffers, ks.reserveSpace])
    && ApartFrom(ks.reserveSpace, [ks.blockCache, ks.writeBuffers, ks.usageLimit])
  }

  predicate ApartFrom(p: Path, others: seq<Path>)
    requires |others| == 3
  {
    !Prefix(p, others[0]) && !Prefix(p, others[1]) && !Prefix(p, others[2])
  }

  lemma TikvKeysApart()
    ensures ApartKeys(TIKV_KEYS)
  {
    assert "storage"[0] != "rocksdb"[0] && |"memory-usage-limit"| == 18 && |"block-cache"| != |"reserve-space"|;
    var ks := TIKV_KEYS;
    assert ks.blockCache[0] == ks.reserveSpace[0] == "storage" && ks.writeBuffers[0] == "rocksdb" && ks.usageLimit[0] == "memory-usage-limit";
    assert ks.blockCache[1] == "block-cache" && ks.reserveSpace[1] == "reserve-space";
  }

  ghost predicate SetsMemory(ks: Keys, v: View)
  {
    ks.blockCache in v || ks.writeBuffers in v || ks.usageLimit in v
  }

  function MemorySettings(ks: Keys, s: Sizes): seq<Setting>
  {
    [(ks.blockCache, Size(s.blockCache)), (ks.writeBuffers, Size(s.writeBuffers)), (ks.usageLimit, Size(s.usageLimit))]
  }

  /** All memory keys, if the user sets none of them. */
  ghost function MemoryPart(ks: Keys, v: View, sizes: Option<Sizes>): seq<Setting>
  {
    if sizes.Some? && !SetsMemory(ks, v) then MemorySettings(ks, sizes.value) else []
  }

  function DiskSettings(ks: Keys): seq<Setting>
  {
    [(ks.reserveSpace, Size(1024))]
  }

  /** The disk reserve, if the user does not set it. */
  ghost function DiskPart(ks: Keys, v: View, disk: bool): seq<Setting>
  {
    if disk && ks.reserveSpace !in v then DiskSettings(ks) else []
  }

  ghost function Settings(ks: Keys, v: View, sizes: Option<Sizes>, disk: bool): (s: seq<Setting>)
    requires ApartKeys(ks)
    ensures Apart(s) && forall i :: 0 <= i < |s| ==> s[i].0 !in v
  {
    MemoryPart(ks, v, sizes) + DiskPart(ks, v, disk)
  }

  ghost function Edit(ks: Keys, v: View, sizes: Option<Sizes>, disk: bool): View
    requires ApartKeys(ks)
  {
    SetAll(v, Settings(ks, v, sizes, disk))
  }

  /** Exactly when the edit only adds keys the user left unset: no value of the
      user's stands where a table is needed. */
  lemma EditAddsExactly(ks: Keys, v: View, sizes: Option<Sizes>, disk: bool)
    requires Consistent(v) && ApartKeys(ks)
    ensures Within(v, Edit(ks, v, sizes, disk)) <==>
            forall i :: 0 <= i < |Settings(ks, v, sizes, disk)| ==> Clear(v, Settings(ks, v, sizes, disk)[i].0)
  {
    SetAllAddsExactly(v, Settings(ks, v, sizes, disk));
  }

  lemma MemoryApart(ks: Keys, s: Sizes)
    requires ApartKeys(ks)
    ensures Apart(MemorySettings(ks, s)) && Aside(MemorySettings(ks, s), ks.reserveSpace)
  {
  }

  lemma DiskApart(ks: Keys)
    requires ApartKeys(ks)
    ensures Apart(DiskSettings(ks))
    ensures Aside(DiskSettings(ks), ks.blockCache) && Aside(DiskSettings(ks), ks.writeBuffers) && Aside(DiskSettings(ks), ks.usageLimit)
  {
  }

  lemma MemoryIsSet(ks: Keys, v: View, sizes: Option<Sizes>)
    requires Consistent(v) && ApartKeys(ks)
    ensures var u := SetAll(v, MemoryPart(ks, v, sizes));
      Consistent(u) && (sizes.Some? ==> SetsMemory(ks, u)) && (ks.reserveSpace in u <==> ks.reserveSpace in v)
  {
    if sizes.Some? && !SetsMemory(ks, v) {
      var s := MemorySettings(ks, sizes.value);
      MemoryApart(ks, sizes.value);
      SetAllAt(v, s, 2, ks.usageLimit);
      SetAllAside(v, s, ks.reserveSpace);
      SetAllConsistent(v, s);
    }
  }

  /** The disk reserve is decided after the memory settings are made. */
  lemma EditInTwo(ks: Keys, v: View, sizes: Option<Sizes>, disk: bool)
    requires Consistent(v) && ApartKeys(ks)
    ensures var u := SetAll(v, MemoryPart(ks, v, sizes)); Edit(ks, v, sizes, disk) == SetAll(u, DiskPart(ks, u, disk))
  {
    MemoryIsSet(ks, v, sizes);
    SetAllAppend(v, MemoryPart(ks, v, sizes), DiskPart(ks, v, disk));
  }

  /** A value on the way to the disk reserve is lost to it. */
  lemma ValueIsReplaced(ks: Keys, v: View, n: nat)
    requires Consistent(v) && ApartKeys(ks)
    requires n < |ks.reserveSpace| && ks.reserveSpace[..n] in v && v[ks.reserveSpace[..n]].Leaf?
    ensures var w := Edit(ks, v, None, true); ks.reserveSpace[..n] in w && w[ks.reserveSpace[..n]] == Table
  {
    assert ks.reserveSpace !in v by {
      if ks.reserveSpace in v { Above(v, ks.reserveSpace[..n], ks.reserveSpace); }
    }
    SetAllAt(v, Settings(ks, v, None, true), 0, ks.reserveSpace[..n]);
  }

  ghost predicate KeptAt(v: View, w: View, p: Path)
  {
    (p in w <==> p in v) && (p in v ==> w[p] == v[p])
  }

  ghost predicate HasAt(w: View, p: Path, mib: nat)
  {
    p in w && w[p] == Leaf(Size(mib))
  }

  /** A limit from 4 GiB to less than 8 GiB, and no memory setting of the user's. */
  ghost predicate MemoryIsSized(ks: Keys, v: View, limit: Option<int>)
  {
    && limit.Some? && 4_294_967_296 <= limit.value < 8_589_934_592
    && ks.blockCache !in v && ks.writeBuffers !in v && ks.usageLimit !in v
  }

  /** A volume of less than 100 GiB, and no disk reserve of the user's. */
  ghost predicate DiskIsSized(ks: Keys, v: View, volume: int)
  {
    volume != 0 && volume < 107_374_182_400 && ks.reserveSpace !in v
  }

  ghost predicate HasSizes(ks: Keys, w: View, blockCache: nat, writeBuffers: nat, usageLimit: nat)
  {
    HasAt(w, ks.blockCache, blockCache) && HasAt(w, ks.writeBuffers, writeBuffers) && HasAt(w, ks.usageLimit, usageLimit)
  }

  ghost predicate MemoryKept(ks: Keys, v: View, w: View)
  {
    KeptAt(v, w, ks.blockCache) && KeptAt(v, w, ks.writeBuffers) && KeptAt(v, w, ks.usageLimit)
  }

  /** Of what 2560 MiB leave of the limit, 45% for the block cache, 15% for the
      write buffers, and 2560 MiB and 75% as the usage limit. A key that is not set
      stays as the user has it. */
  ghost predicate MemoryIsPlaced(ks: Keys, v: View, w: View, limit: Option<int>)
  {
    if MemoryIsSized(ks, v, limit) then
      var mib := (limit.value - 2_684_354_560) / 1_048_576;
      HasSizes(ks, w, mib * 45 / 100, mib * 15 / 100, 2560 + mib * 75 / 100)
    else MemoryKept(ks, v, w)
  }

  /** w is v with what fits the limit and the volume: the memory keys, and 1024 MiB
      as the disk reserve. */
  ghost predicate IsSized(ks: Keys, v: View, w: View, limit: Option<int>, volume: int)
  {
    && MemoryIsPlaced(ks, v, w, limit)
    && (if DiskIsSized(ks, v, volume) then HasAt(w, ks.reserveSpace, 1024) else KeptAt(v, w, ks.reserveSpace))
  }

  lemma MemorySizes(ks: Keys, v: View, sizes: Option<Sizes>)
    requires Consistent(v) && ApartKeys(ks)
    ensures var u := SetAll(v, MemoryPart(ks, v, sizes));
      && Consistent(u) && KeptAt(v, u, ks.reserveSpace)
      && (if MemoryPart(ks, v, sizes) == [] then u == v
          else HasSizes(ks, u, sizes.value.blockCache, sizes.value.writeBuffers, sizes.value.usageLimit))
  {
    if MemoryPart(ks, v, sizes) != [] {
      var s := MemorySettings(ks, sizes.value);
      MemoryApart(ks, sizes.value);
      SetAllAt(v, s, 0, ks.blockCache);
      SetAllAt(v, s, 1, ks.writeBuffers);
      SetAllAt(v, s, 2, ks.usageLimit);
      SetAllAside(v, s, ks.reserveSpace);
      SetAllConsistent(v, s);
    }
  }

  lemma DiskSizes(ks: Keys, u: View, disk: bool)
    requires Consistent(u) && ApartKeys(ks)
    ensures var w := SetAll(u, DiskPart(ks, u, disk));
      MemoryKept(ks, u, w) && if DiskPart(ks, u, disk) == [] then w == u else HasAt(w, ks.reserveSpace, 1024)
  {
    if disk && ks.reserveSpace !in u {
      DiskApart(ks);
      SetAllAt(u, DiskSettings(ks), 0, ks.reserveSpace);
      SetAllAside(u, DiskSettings(ks), ks.blockCache);
      SetAllAside(u, DiskSettings(ks), ks.writeBuffers);
      SetAllAside(u, DiskSettings(ks), ks.usageLimit);
    }
  }

  lemma PartsAre(ks: Keys, v: View, limit: Option<int>, volume: int)
    ensures MemoryPart(ks, v, SizesFor(limit)) == [] <==> !MemoryIsSized(ks, v, limit)
    ensures DiskPart(ks, v, SizesDisk(volume)) == [] <==> !DiskIsSized(ks, v, volume)
  {
  }

  lemma EditHas(ks: Keys, v: View, sizes: Option<Sizes>, disk: bool)
    requires Consistent(v) && ApartKeys(ks)
    ensures var w := Edit(ks, v, sizes, disk);
      && (if MemoryPart(ks, v, sizes) == [] then MemoryKept(ks, v, w)
          else HasSizes(ks, w, sizes.value.blockCache, sizes.value.writeBuffers, sizes.value.usageLimit))
      && (if DiskPart(ks, v, disk) == [] then KeptAt(v, w, ks.reserveSpace) else HasAt(w, ks.reserveSpace, 1024))
  {
    var u := SetAll(v, MemoryPart(ks, v, sizes));
    EditInTwo(ks, v, sizes, disk);
    MemorySizes(ks, v, sizes);
    DiskSizes(ks, u, disk);
  }

  lemma AllIsSet(ks: Keys, v: View, sizes: Option<Sizes>, disk: bool)
    requires Consistent(v) && ApartKeys(ks)
    ensures var w := Edit(ks, v, sizes, disk); (sizes.Some? ==> SetsMemory(ks, w)) && (disk ==> ks.reserveSpace in w)
  {
    EditHas(ks, v, sizes, disk);
  }

  lemma NothingLeft(ks: Keys, w: View, sizes: Option<Sizes>, disk: bool)
    requires ApartKeys(ks) && (sizes.Some? ==> SetsMemory(ks, w)) && (disk ==> ks.reserveSpace in w)
    ensures Edit(ks, w, sizes, disk) == w
  {
    assert Settings(ks, w, sizes, disk) == [];
  }

  /** After the edit nothing is left to set: editing again changes nothing. */
  lemma EditIsIdempotent(ks: Keys, v: View, sizes: Option<Sizes>, disk: bool)
    requires Consistent(v) && ApartKeys(ks)
    ensures Edit(ks, Edit(ks, v, sizes, disk), sizes, disk) == Edit(ks, v, sizes, disk)
  {
    AllIsSet(ks, v, sizes, disk);
    NothingLeft(ks, Edit(ks, v, sizes, disk), sizes, disk);
  }

  /** Below the limit sizes are set, and which. */
  lemma SizesAre(limit: Option<int>)
    ensures SizesFor(limit).Some? <==> limit.Some? && 4_294_967_296 <= limit.value < 8_589_934_592
    ensures SizesFor(limit).Some? ==>
              var mib := (limit.value - 2_684_354_560) / 1_048_576;
              SizesFor(limit).value == Sizes(mib * 45 / 100, mib * 15 / 100, 2560 + mib * 75 / 100)
  {
  }

  lemma SizesArePlaced(ks: Keys, v: View, w: View, sizes: Option<Sizes>, limit: Option<int>)
    requires sizes.Some? <==> limit.Some? && 4_294_967_296 <= limit.value < 8_589_934_592
    requires sizes.Some? ==>
               var mib := (limit.value - 2_684_354_560) / 1_048_576;
               sizes.value == Sizes(mib * 45 / 100, mib * 15 / 100, 2560 + mib * 75 / 100)
    requires if MemoryPart(ks, v, sizes) == [] then MemoryKept(ks, v, w)
             else HasSizes(ks, w, sizes.value.blockCache, sizes.value.writeBuffers, sizes.value.usageLimit)
    ensures MemoryIsPlaced(ks, v, w, limit)
  {
  }

  /** Exactly when the edit sets a key, and to what. */
  lemma EditSizes(ks: Keys, v: View, limit: Option<int>, volume: int)
    requires Consistent(v) && ApartKeys(ks)
    ensures IsSized(ks, v, Edit(ks, v, SizesFor(limit), SizesDisk(volume)), limit, volume)
  {
    EditHas(ks, v, SizesFor(limit), SizesDisk(volume));
    SizesAre(limit);
    SizesArePlaced(ks, v, Edit(ks, v, SizesFor(limit), SizesDisk(volume)), SizesFor(limit), limit);
    PartsAre(ks, v, limit, volume);
  }

  // ----------------------------------------------------------------- the code

  /** The group's config: the user's, with what fits a small memory limit or
      volume. The config is one that parses. */
  method ConfigFor(cfg: Config, limit: Option<int>, volume: int) returns (changed: bool)
    requires cfg.Valid()
    modifies cfg
    ensures cfg.Valid() && ApartKeys(TIKV_KEYS)
    ensures cfg.View() == Edit(TIKV_KEYS, old(cfg.View()), SizesFor(limit), SizesDisk(volume))
    ensures IsSized(TIKV_KEYS, old(cfg.View()), cfg.View(), limit, volume)
    ensures changed <==> MemoryIsSized(TIKV_KEYS, old(cfg.View()), limit) || DiskIsSized(TIKV_KEYS, old(cfg.View()), volume)
    ensures !changed ==> cfg.View() == old(cfg.View())
  {
    TikvKeysApart();
    changed := Fit(TIKV_KEYS, cfg, limit, volume);
  }

  method Fit(ks: Keys, cfg: Config, limit: Option<int>, volume: int) returns (changed: bool)
    requires cfg.Valid() && ApartKeys(ks)
    modifies cfg
    ensures cfg.Valid() && cfg.View() == Edit(ks, old(cfg.View()), SizesFor(limit), SizesDisk(volume))
    ensures IsSized(ks, old(cfg.View()), cfg.View(), limit, volume)
    ensures changed <==> MemoryIsSized(ks, old(cfg.View()), limit) || DiskIsSized(ks, old(cfg.View()), volume)
    ensures !changed ==> cfg.View() == old(cfg.View())
  {
    ViewIsConsistent(cfg.tables);
    EditSizes(ks, cfg.View(), limit, volume);
    PartsAre(ks, cfg.View(), limit, volume);
    if !SizesMemory(limit) && !SizesDisk(volume) {
      return false;
    }
    changed := EditConfig(ks, cfg, SizesFor(limit), SizesDisk(volume));
  }

  /** Edits a config that parses; false when there is nothing to change. */
  method EditConfig(ks: Keys, cfg: Config, sizes: Option<Sizes>, disk: bool) returns (changed: bool)
    requires cfg.Valid() && ApartKeys(ks)
    modifies cfg
    ensures cfg.Valid() && cfg.View() == Edit(ks, old(cfg.View()), sizes, disk)
    ensures changed <==> MemoryPart(ks, old(cfg.View()), sizes) != [] || DiskPart(ks, old(cfg.View()), disk) != []
    ensures !changed ==> cfg.View() == old(cfg.View())
  {
    ViewIsConsistent(cfg.tables);
    EditInTwo(ks, cfg.View(), sizes, disk);
    var sized := SetMemory(ks, cfg, sizes);
    var reserved := SetDisk(ks, cfg, disk);
    return sized || reserved;
  }

  method SetMemory(ks: Keys, cfg: Config, sizes: Option<Sizes>) returns (changed: bool)
    requires cfg.Valid() && ApartKeys(ks)
    modifies cfg
    ensures cfg.Valid() && cfg.View() == SetAll(old(cfg.View()), MemoryPart(ks, old(cfg.View()), sizes))
    ensures changed <==> MemoryPart(ks, old(cfg.View()), sizes) != []
    ensures !changed ==> cfg.View() == old(cfg.View())
  {
    if !sizes.Some? {
      return false;
    }
    var has := HasAnyKey(cfg, [ks.blockCache, ks.writeBuffers, ks.usageLimit]);
    if has {
      return false;
    }
    MemorySet(ks, cfg.View(), sizes.value);
    cfg.SetKey(ks.blockCache, Size(sizes.value.blockCache));
    cfg.SetKey(ks.writeBuffers, Size(sizes.value.writeBuffers));
    cfg.SetKey(ks.usageLimit, Size(sizes.value.usageLimit));
    return true;
  }

  method SetDisk(ks: Keys, cfg: Config, disk: bool) returns (changed: bool)
    requires cfg.Valid() && ApartKeys(ks)
    modifies cfg
    ensures cfg.Valid() && cfg.View() == SetAll(old(cfg.View()), DiskPart(ks, old(cfg.View()), disk))
    ensures changed <==> DiskPart(ks, old(cfg.View()), disk) != []
    ensures !changed ==> cfg.View() == old(cfg.View())
  {
    if !disk {
      return false;
    }
    var has := cfg.HasKey(ks.reserveSpace);
    if has {
      return false;
    }
    SetAllOne(cfg.View(), (ks.reserveSpace, Size(1024)));
    cfg.SetKey(ks.reserveSpace, Size(1024));
    return true;
  }

  method HasAnyKey(cfg: Config, keys: seq<Path>) returns (has: bool)
    requires cfg.Valid() && forall i :: 0 <= i < |keys| ==> keys[i] != []
    ensures has <==> exists i :: 0 <= i < |keys| && keys[i] in cfg.View()
  {
    for i := 0 to |keys|
      invariant forall j :: 0 <= j < i ==> keys[j] !in cfg.View()
    {
      has := cfg.HasKey(keys[i]);
      if has {
        return true;
      }
    }
    return false;
  }

  lemma MemorySet(ks: Keys, v: View, s: Sizes)
    requires ApartKeys(ks)
    ensures SetAll(v, MemorySettings(ks, s)) ==
            SetView(SetView(SetView(v, ks.blockCache, Size(s.blockCache)), ks.writeBuffers, Size(s.writeBuffers)),
                    ks.usageLimit, Size(s.usageLimit))
  {
    var m := MemorySettings(ks, s);
    SetAllOne(v, m[0]);
    SetAllOne(SetAll(v, [m[0]]), m[1]);
    SetAllOne(SetAll(SetAll(v, [m[0]]), [m[1]]), m[2]);
    SetAllAppend(v, [m[0]], [m[1]]);
    SetAllAppend(v, [m[0]] + [m[1]], [m[2]]);
    assert [m[0]] + [m[1]] + [m[2]] == m;
  }
}
