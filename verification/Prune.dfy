/** What is dropped from an object before it is applied: nulls, and the {} that
    unset non-pointer structs leave. The Go value an object was made from directs
    the second pass over its JSON tree. */
module Prune {
  import opened Wrappers

  datatype Json = Null | Scalar(text: string) | Map(entries: map<string, Json>) | List(items: seq<Json>)

  const EMPTY := Map(map[])

  /** A Go value: Custom marshals itself, Prim is any other value without parts. A
      Ptr is a pointer or an interface that is not nil. */
  datatype GoVal =
    | Nil
    | Prim
    | Custom
    | Ptr(target: GoVal)
    | Struct(fields: seq<Field>)
    | Dict(values: map<string, GoVal>)
    | Slice(elems: seq<GoVal>)

  /** A struct field, with its key in the JSON ("" when inlined, "-" when left out). */
  datatype Field = Field(name: string, omitempty: bool, value: GoVal)

  // ------------------------------------------------------------ the two passes

  function PruneNulls(j: Json): Json
  {
    match j
    case Map(m) => Map(map k | k in m && !m[k].Null? :: PruneNulls(m[k]))
    case List(l) => List(seq(|l|, i requires 0 <= i < |l| => PruneNulls(l[i])))
    case _ => j
  }

  function PruneEmpty(v: GoVal, j: Json): (r: Json)
    ensures j.Map? <==> r.Map?
    decreases v, if v.Struct? then |v.fields| + 1 else 0
  {
    match v
    case Ptr(u) => PruneEmpty(u, j)
    case Struct(_) => if j.Map? then Map(PruneFields(v, 0, j.entries)) else j
    case Dict(g) =>
      if j.Map? then Map(map k | k in j.entries :: if k in g then PruneEmpty(g[k], j.entries[k]) else j.entries[k]) else j
    case Slice(es) =>
      if j.List? && |j.items| == |es| then List(seq(|es|, i requires 0 <= i < |es| => PruneEmpty(es[i], j.items[i]))) else j
    case _ => j
  }

  /** The fields from the ith on, each working on what the previous ones left. */
  function PruneFields(v: GoVal, i: nat, m: map<string, Json>): map<string, Json>
    requires v.Struct? && i <= |v.fields|
    decreases v, |v.fields| - i
  {
    if i == |v.fields| then m
    else
      var f := v.fields[i];
      PruneFields(v, i + 1,
        if f.name == "-" then m
        else if f.name == "" then PruneEmpty(f.value, Map(m)).entries
        else if f.name !in m then m
        else
          var child := PruneEmpty(f.value, m[f.name]);
          if child == EMPTY && f.omitempty && f.value.Struct? then m - {f.name} else m[f.name := child])
  }

  /** The pass before an object is applied. */
  function Prune(v: GoVal, j: Json): Json
  {
    PruneEmpty(v, PruneNulls(j))
  }

  // ---------------------------------------------------- key by key, in no order

  /** What a key of a map is made from, and whether it is dropped as {}. */
  datatype Slot = Slot(value: GoVal, drop: bool)

  function Owner(v: GoVal, k: string): Option<Slot>
    decreases v, if v.Struct? then |v.fields| + 1 else 0
  {
    match v
    case Ptr(u) => Owner(u, k)
    case Struct(_) => OwnerFrom(v, 0, k)
    case Dict(g) => if k in g then Some(Slot(g[k], false)) else None
    case _ => None
  }

  function OwnerFrom(v: GoVal, i: nat, k: string): Option<Slot>
    requires v.Struct? && i <= |v.fields|
    decreases v, |v.fields| - i, 1
  {
    if i == |v.fields| then None
    else if Claim(v, i, k).Some? then Claim(v, i, k)
    else OwnerFrom(v, i + 1, k)
  }

  /** What the ith field makes of the key, if it is one of its own. */
  function Claim(v: GoVal, i: nat, k: string): Option<Slot>
    requires v.Struct? && i < |v.fields|
    decreases v, |v.fields| - i, 0
  {
    var f := v.fields[i];
    if f.name == "-" then None
    else if f.name == "" then Owner(f.value, k)
    else if f.name == k then Some(Slot(f.value, f.omitempty && f.value.Struct?))
    else None
  }

  /** No two fields of a struct, inlined ones included, share a key. */
  ghost predicate Distinct(v: GoVal)
  {
    match v
    case Ptr(u) => Distinct(u)
    case Struct(fields) =>
      && (forall i, j, k :: 0 <= i < j < |fields| ==> Claim(v, i, k).None? || Claim(v, j, k).None?)
      && (forall i :: 0 <= i < |fields| ==> Distinct(fields[i].value))
    case Dict(g) => forall k :: k in g ==> Distinct(g[k])
    case Slice(es) => forall i :: 0 <= i < |es| ==> Distinct(es[i])
    case _ => true
  }

  function Get(m: map<string, Json>, k: string): Option<Json>
  {
    if k in m then Some(m[k]) else None
  }

  /** What becomes of a key's entry. */
  function After(s: Option<Slot>, entry: Option<Json>): Option<Json>
  {
    if entry.None? || s.None? then entry
    else
      var r := PruneEmpty(s.value.value, entry.value);
      if s.value.drop && r == EMPTY then None else Some(r)
  }

  /** The in-place pass over the fields, one after the other and inlined ones on
      the same map, does to each key what its own field asks, and nothing else. */
  lemma {:induction false} KeyWise(v: GoVal, m: map<string, Json>, k: string)
    requires Distinct(v)
    ensures Get(PruneEmpty(v, Map(m)).entries, k) == After(Owner(v, k), Get(m, k))
    decreases v, if v.Struct? then |v.fields| + 1 else 0
  {
    match v
    case Ptr(u) => KeyWise(u, m, k);
    case Struct(_) => FieldWise(v, 0, m, k);
    case _ =>
  }

  lemma {:induction false} FieldWise(v: GoVal, i: nat, m: map<string, Json>, k: string)
    requires v.Struct? && i <= |v.fields| && Distinct(v)
    ensures Get(PruneFields(v, i, m), k) == After(OwnerFrom(v, i, k), Get(m, k))
    decreases v, |v.fields| - i
  {
    if i < |v.fields| {
      var f := v.fields[i];
      var m' := if f.name == "-" then m
                else if f.name == "" then PruneEmpty(f.value, Map(m)).entries
                else if f.name !in m then m
                else
                  var child := PruneEmpty(f.value, m[f.name]);
                  if child == EMPTY && f.omitempty && f.value.Struct? then m - {f.name} else m[f.name := child];
      FieldWise(v, i + 1, m', k);
      if f.name == "" {
        KeyWise(f.value, m, k);
      }
      assert Get(m', k) == After(Claim(v, i, k), Get(m, k));
      if Claim(v, i, k).Some? {
        NoLater(v, i, i + 1, k);
      }
    }
  }

  lemma {:induction false} NoLater(v: GoVal, i: nat, j: nat, k: string)
    requires v.Struct? && i < j <= |v.fields| && Distinct(v) && Claim(v, i, k).Some?
    ensures OwnerFrom(v, j, k).None?
    decreases |v.fields| - j
  {
    if j < |v.fields| {
      NoLater(v, i, j + 1, k);
    }
  }

  // ------------------------------------------------------------ path by path

  datatype Part = Key(key: string) | Index(index: nat)

  function At(j: Json, p: seq<Part>): Option<Json>
    decreases |p|
  {
    if p == [] then Some(j) else if Child(j, p[0]).None? then None else At(Child(j, p[0]).value, p[1..])
  }

  function Child(j: Json, part: Part): Option<Json>
  {
    match part
    case Key(k) => if j.Map? && k in j.entries then Some(j.entries[k]) else None
    case Index(i) => if j.List? && i < |j.items| then Some(j.items[i]) else None
  }

  /** The element a list item is made from; Nil when there is no telling. */
  function Elem(v: GoVal, n: nat, i: nat): GoVal
  {
    match v
    case Ptr(u) => Elem(u, n, i)
    case Slice(es) => if |es| == n && i < n then es[i] else Nil
    case _ => Nil
  }

  /** The value a part of the tree is made from; Nil when there is none. */
  function Below(v: GoVal, j: Json, part: Part): GoVal
  {
    match part
    case Key(k) => if Owner(v, k).Some? then Owner(v, k).value.value else Nil
    case Index(i) => if j.List? then Elem(v, |j.items|, i) else Nil
  }

  function TypeAt(v: GoVal, j: Json, p: seq<Part>): GoVal
    decreases |p|
  {
    if p == [] then v else if Child(j, p[0]).None? then Nil else TypeAt(Below(v, j, p[0]), Child(j, p[0]).value, p[1..])
  }

  predicate Drops(v: GoVal, part: Part)
  {
    part.Key? && Owner(v, part.key).Some? && Owner(v, part.key).value.drop
  }

  /** The path ends at a non-pointer omitempty field of plain struct type. */
  predicate DropAt(v: GoVal, j: Json, p: seq<Part>)
    decreases |p|
  {
    p != [] && Child(j, p[0]).Some? &&
    if |p| == 1 then Drops(v, p[0]) else DropAt(Below(v, j, p[0]), Child(j, p[0]).value, p[1..])
  }

  lemma OwnerDistinct(v: GoVal, k: string)
    requires Distinct(v) && Owner(v, k).Some?
    ensures Distinct(Owner(v, k).value.value)
    decreases v, if v.Struct? then |v.fields| + 1 else 0
  {
    match v
    case Ptr(u) => OwnerDistinct(u, k);
    case Struct(_) => OwnerFromDistinct(v, 0, k);
    case _ =>
  }

  lemma OwnerFromDistinct(v: GoVal, i: nat, k: string)
    requires v.Struct? && i <= |v.fields| && Distinct(v) && OwnerFrom(v, i, k).Some?
    ensures Distinct(OwnerFrom(v, i, k).value.value)
    decreases v, |v.fields| - i
  {
    if Claim(v, i, k).Some? {
      if v.fields[i].name == "" { OwnerDistinct(v.fields[i].value, k); }
    } else {
      OwnerFromDistinct(v, i + 1, k);
    }
  }

  lemma ElemDistinct(v: GoVal, n: nat, i: nat)
    requires Distinct(v)
    ensures Distinct(Elem(v, n, i))
  {
  }

  lemma BelowDistinct(v: GoVal, j: Json, part: Part)
    requires Distinct(v)
    ensures Distinct(Below(v, j, part))
  {
    match part
    case Key(k) => if Owner(v, k).Some? { OwnerDistinct(v, k); }
    case Index(i) => if j.List? { ElemDistinct(v, |j.items|, i); }
  }

  lemma {:induction false} ItemWise(v: GoVal, l: seq<Json>)
    ensures PruneEmpty(v, List(l)).List? && |PruneEmpty(v, List(l)).items| == |l|
    ensures forall i :: 0 <= i < |l| ==> PruneEmpty(v, List(l)).items[i] == PruneEmpty(Elem(v, |l|, i), l[i])
  {
    if v.Ptr? {
      ItemWise(v.target, l);
    }
  }

  /** The child of what is left is what is left of the child, unless it is dropped. */
  lemma ChildWise(v: GoVal, j: Json, part: Part)
    requires Distinct(v)
    ensures var c := Child(j, part);
      Child(PruneEmpty(v, j), part) ==
      if c.None? then None
      else
        var r := PruneEmpty(Below(v, j, part), c.value);
        if Drops(v, part) && r == EMPTY then None else Some(r)
  {
    match part
    case Key(k) =>
      if j.Map? {
        KeyWise(v, j.entries, k);
      } else {
        NotMap(v, j);
      }
    case Index(i) =>
      if j.List? {
        ItemWise(v, j.items);
      } else {
        NotList(v, j);
      }
  }

  lemma NotMap(v: GoVal, j: Json)
    requires !j.Map?
    ensures !PruneEmpty(v, j).Map?
  {
  }

  lemma NotList(v: GoVal, j: Json)
    requires !j.List?
    ensures !PruneEmpty(v, j).List?
  {
  }

  /** Everything at every path: what is left of what was there, unless it is a {}
      that a non-pointer omitempty struct left. */
  lemma {:induction false} EveryPath(v: GoVal, j: Json, p: seq<Part>)
    requires Distinct(v)
    ensures At(PruneEmpty(v, j), p) ==
            if At(j, p).None? then None
            else
              var r := PruneEmpty(TypeAt(v, j, p), At(j, p).value);
              if DropAt(v, j, p) && r == EMPTY then None else Some(r)
    decreases |p|
  {
    if p != [] {
      ChildWise(v, j, p[0]);
      if Child(j, p[0]).Some? {
        BelowDistinct(v, j, p[0]);
        EveryPath(Below(v, j, p[0]), Child(j, p[0]).value, p[1..]);
        assert |p| > 1 ==> At(EMPTY, p[1..]).None?;
      }
    }
  }

  // ------------------------------------------------------------- the fixpoint

  lemma {:induction false} Idempotent(v: GoVal, j: Json)
    requires Distinct(v)
    ensures PruneEmpty(v, PruneEmpty(v, j)) == PruneEmpty(v, j)
    decreases j
  {
    var r := PruneEmpty(v, j);
    if j.Map? {
      forall k ensures Get(PruneEmpty(v, r).entries, k) == Get(r.entries, k) {
        KeyWise(v, j.entries, k);
        KeyWise(v, r.entries, k);
        if k in j.entries && Owner(v, k).Some? {
          OwnerDistinct(v, k);
          Idempotent(Owner(v, k).value.value, j.entries[k]);
        }
      }
      SameEntries(PruneEmpty(v, r).entries, r.entries);
    } else if j.List? {
      ItemWise(v, j.items);
      ItemWise(v, r.items);
      forall i | 0 <= i < |j.items| ensures PruneEmpty(v, r).items[i] == r.items[i] {
        ElemDistinct(v, |j.items|, i);
        Idempotent(Elem(v, |j.items|, i), j.items[i]);
      }
    } else {
      LeafKeeps(v, j);
    }
  }

  lemma SameEntries(a: map<string, Json>, b: map<string, Json>)
    requires forall k :: Get(a, k) == Get(b, k)
    ensures a == b
  {
    forall k ensures (k in a <==> k in b) && (k in a ==> a[k] == b[k]) {
      assert Get(a, k) == Get(b, k);
    }
  }

  lemma LeafKeeps(v: GoVal, j: Json)
    requires !j.Map? && !j.List?
    ensures PruneEmpty(v, j) == j
  {
  }

  /** No non-pointer omitempty field of plain struct type is left as {}. */
  ghost predicate Clean(v: GoVal, j: Json)
  {
    forall p :: At(j, p) == Some(EMPTY) ==> !DropAt(v, j, p)
  }

  /** What a path is made from does not depend on what was dropped elsewhere. */
  lemma {:induction false} SameTypes(v: GoVal, j: Json, p: seq<Part>)
    requires Distinct(v) && At(PruneEmpty(v, j), p).Some?
    ensures DropAt(v, PruneEmpty(v, j), p) == DropAt(v, j, p)
    ensures TypeAt(v, PruneEmpty(v, j), p) == TypeAt(v, j, p)
    decreases |p|
  {
    if p != [] {
      ChildWise(v, j, p[0]);
      if j.List? { ItemWise(v, j.items); }
      BelowDistinct(v, j, p[0]);
      assert Below(v, PruneEmpty(v, j), p[0]) == Below(v, j, p[0]);
      SameTypes(Below(v, j, p[0]), Child(j, p[0]).value, p[1..]);
    }
  }

  lemma LeavesClean(v: GoVal, j: Json)
    requires Distinct(v)
    ensures Clean(v, PruneEmpty(v, j))
  {
    forall p | At(PruneEmpty(v, j), p) == Some(EMPTY) ensures !DropAt(v, PruneEmpty(v, j), p) {
      SameTypes(v, j, p);
      EveryPath(v, j, p);
    }
  }

  // ----------------------------------------------------------------- the nulls

  /** No map holds null, at any depth; a list may. */
  ghost predicate NoNulls(j: Json)
  {
    match j
    case Map(m) => forall k :: k in m ==> !m[k].Null? && NoNulls(m[k])
    case List(l) => forall i :: 0 <= i < |l| ==> NoNulls(l[i])
    case _ => true
  }

  lemma NullsGo(j: Json)
    ensures NoNulls(PruneNulls(j)) && (PruneNulls(j).Null? <==> j.Null?)
  {
  }

  lemma NoNullsIsFixed(j: Json)
    requires NoNulls(j)
    ensures PruneNulls(j) == j
  {
    if j.List? {
      assert forall i :: 0 <= i < |j.items| ==> PruneNulls(j.items[i]) == j.items[i];
    }
  }

  lemma {:induction false} NullsStayAway(v: GoVal, j: Json)
    requires Distinct(v) && NoNulls(j)
    ensures NoNulls(PruneEmpty(v, j)) && (PruneEmpty(v, j).Null? <==> j.Null?)
    decreases j
  {
    var r := PruneEmpty(v, j);
    if j.Map? {
      forall k | k in r.entries ensures !r.entries[k].Null? && NoNulls(r.entries[k]) {
        KeyWise(v, j.entries, k);
        assert Get(r.entries, k) == Some(r.entries[k]);
        if Owner(v, k).Some? {
          OwnerDistinct(v, k);
          NullsStayAway(Owner(v, k).value.value, j.entries[k]);
        }
      }
    } else if j.List? {
      ItemWise(v, j.items);
      forall i | 0 <= i < |j.items| ensures NoNulls(r.items[i]) {
        ElemDistinct(v, |j.items|, i);
        NullsStayAway(Elem(v, |j.items|, i), j.items[i]);
      }
    } else {
      LeafKeeps(v, j);
    }
  }

  /** Only nulls under a key go in the first pass. */
  lemma {:induction false} NullsPath(j: Json, p: seq<Part>)
    ensures At(PruneNulls(j), p) ==
            if At(j, p).None? || (p != [] && p[|p| - 1].Key? && At(j, p).value.Null?) then None
            else Some(PruneNulls(At(j, p).value))
    decreases |p|
  {
    if p != [] && Child(j, p[0]).Some? {
      NullsPath(Child(j, p[0]).value, p[1..]);
      if Child(j, p[0]).value.Null? && |p| > 1 {
        assert At(Null, p[1..]).None?;
      }
    }
  }

  // -------------------------------------------------------------- the whole pass

  /** Main result. What is left after both passes has no null in any map and no {}
      of a non-pointer omitempty struct, and another pass changes nothing. */
  lemma PruneIsAFixpoint(v: GoVal, j: Json)
    requires Distinct(v)
    ensures var r := Prune(v, j); NoNulls(r) && Clean(v, r) && Prune(v, r) == r
  {
    NullsGo(j);
    NullsStayAway(v, PruneNulls(j));
    LeavesClean(v, PruneNulls(j));
    NoNullsIsFixed(Prune(v, j));
    Idempotent(v, PruneNulls(j));
  }

  /** Every scalar stays at its path, and none appears elsewhere. */
  lemma ScalarsStay(v: GoVal, j: Json, p: seq<Part>, text: string)
    requires Distinct(v)
    ensures At(Prune(v, j), p) == Some(Scalar(text)) <==> At(j, p) == Some(Scalar(text))
  {
    NullsPath(j, p);
    EveryPath(v, PruneNulls(j), p);
    if At(PruneNulls(j), p).Some? {
      KindKept(TypeAt(v, PruneNulls(j), p), At(PruneNulls(j), p).value);
    }
  }

  lemma KindKept(v: GoVal, j: Json)
    ensures PruneEmpty(v, j).Map? == j.Map? && PruneEmpty(v, j).List? == j.List?
    ensures !j.Map? && !j.List? ==> PruneEmpty(v, j) == j
  {
  }

  /** A {} under a pointer, a map key or a list index stays: only one of a
      non-pointer omitempty struct goes. */
  lemma EmptiesStay(v: GoVal, j: Json, p: seq<Part>)
    requires Distinct(v) && At(j, p) == Some(EMPTY)
    ensures At(Prune(v, j), p) == if DropAt(v, PruneNulls(j), p) then None else Some(EMPTY)
  {
    NullsPath(j, p);
    EveryPath(v, PruneNulls(j), p);
    var t := TypeAt(v, PruneNulls(j), p);
    forall k ensures Get(PruneEmpty(t, EMPTY).entries, k).None? {
      TypeDistinct(v, PruneNulls(j), p);
      KeyWise(t, map[], k);
    }
    SameEntries(PruneEmpty(t, EMPTY).entries, map[]);
  }

  lemma {:induction false} TypeDistinct(v: GoVal, j: Json, p: seq<Part>)
    requires Distinct(v)
    ensures Distinct(TypeAt(v, j, p))
    decreases |p|
  {
    if p != [] && Child(j, p[0]).Some? {
      BelowDistinct(v, j, p[0]);
      TypeDistinct(Below(v, j, p[0]), Child(j, p[0]).value, p[1..]);
    }
  }

  /** Two fields that share a key spoil this: the first looks at the entry before
      the second empties it. */
  lemma SharedKeyLeavesAnEmpty() returns (v: GoVal, j: Json)
    ensures !Clean(v, PruneEmpty(v, j)) && PruneEmpty(v, PruneEmpty(v, j)) != PruneEmpty(v, j)
  {
    var inner := Struct([Field("b", true, Struct([]))]);
    var f := Field("a", true, Struct([]));
    var g := Field("a", false, inner);
    v := Struct([f, g]);
    j := Map(map["a" := Map(map["b" := EMPTY])]);
    var mid := Map(map["a" := EMPTY]);
    assert PruneFields(inner, 0, map["b" := EMPTY]) == PruneFields(inner, 1, map[]) == map[];
    assert PruneEmpty(inner, Map(map["b" := EMPTY])) == EMPTY;
    assert PruneFields(v, 1, j.entries) == PruneFields(v, 2, j.entries["a" := EMPTY]) == mid.entries;
    assert PruneEmpty(Struct([]), j.entries["a"]) == j.entries["a"];
    assert PruneFields(v, 0, j.entries) == PruneFields(v, 1, j.entries["a" := j.entries["a"]]);
    assert j.entries["a" := j.entries["a"]] == j.entries;
    assert PruneEmpty(v, j) == Map(PruneFields(v, 0, j.entries)) == Map(PruneFields(v, 1, j.entries));
    assert PruneEmpty(v, j) == mid;
    assert Claim(v, 0, "a") == Some(Slot(Struct([]), true));
    assert Child(mid, Key("a")) == Some(EMPTY) && At(mid, [Key("a")]) == Some(EMPTY) && DropAt(v, mid, [Key("a")]);
    assert PruneEmpty(Struct([]), EMPTY) == EMPTY;
    assert PruneFields(v, 0, mid.entries) == PruneFields(v, 1, map[]) == PruneFields(v, 2, map[]) == map[];
  }

  // ----------------------------------------------------------------- the code

  /** Drops nulls; the entries of a map are visited in any order. */
  method DropNulls(j: Json) returns (r: Json)
    ensures r == PruneNulls(j)
    decreases j
  {
    match j
    case Map(m) =>
      var left := m;
      var keys := m.Keys;
      while keys != {}
        invariant keys <= m.Keys && forall k :: k in left <==> k in m && (k in keys || !m[k].Null?)
        invariant forall k :: k in left ==> left[k] == if k in keys then m[k] else PruneNulls(m[k])
        decreases |keys|
      {
        var k :| k in keys;
        keys := keys - {k};
        if left[k].Null? {
          left := left - {k};
        } else {
          var child := DropNulls(m[k]);
          left := left[k := child];
        }
      }
      r := Map(left);
    case List(l) =>
      var items := [];
      for i := 0 to |l|
        invariant items == PruneNulls(List(l)).items[..i]
      {
        var item := DropNulls(l[i]);
        items := items + [item];
      }
      r := List(items);
    case _ => r := j;
  }

  method PruneEmptyStructs(v: GoVal, j: Json) returns (r: Json)
    ensures r == PruneEmpty(v, j)
    decreases v, 2
  {
    match v
    case Ptr(u) => r := PruneEmptyStructs(u, j);
    case Struct(_) =>
      if j.Map? {
        var m := PruneStructFields(v, j.entries);
        r := Map(m);
      } else {
        r := j;
      }
    case Dict(g) =>
      if j.Map? {
        var m := PruneMapValues(v, j.entries);
        r := Map(m);
      } else {
        r := j;
      }
    case Slice(es) =>
      if !j.List? || |j.items| != |es| {
        return j;
      }
      var items := [];
      for i := 0 to |es|
        invariant items == PruneEmpty(v, j).items[..i]
      {
        var item := PruneEmptyStructs(es[i], j.items[i]);
        items := items + [item];
      }
      r := List(items);
    case _ => r := j;
  }

  method PruneStructFields(v: GoVal, entries: map<string, Json>) returns (m: map<string, Json>)
    requires v.Struct?
    ensures m == PruneFields(v, 0, entries)
    decreases v, 1
  {
    m := entries;
    for i := 0 to |v.fields|
      invariant PruneFields(v, 0, entries) == PruneFields(v, i, m)
    {
      var f := v.fields[i];
      if f.name == "-" {
        continue;
      }
      if f.name == "" {
        var inlined := PruneEmptyStructs(f.value, Map(m));
        m := inlined.entries;
        continue;
      }
      if f.name !in m {
        continue;
      }
      var child := PruneEmptyStructs(f.value, m[f.name]);
      ghost var was := m;
      m := m[f.name := child];
      if child == EMPTY && f.omitempty && f.value.Struct? {
        m := m - {f.name};
        assert m == was - {f.name};
      }
    }
  }

  /** A map once the values under all keys but these have been visited. */
  ghost predicate Visited(v: GoVal, entries: map<string, Json>, m: map<string, Json>, keys: set<string>)
    requires v.Dict?
  {
    && m.Keys == entries.Keys
    && forall k :: k in m ==> m[k] == if k in v.values && k !in keys then PruneEmpty(v.values[k], entries[k]) else entries[k]
  }

  lemma AllVisited(v: GoVal, entries: map<string, Json>, m: map<string, Json>)
    requires v.Dict? && Visited(v, entries, m, {})
    ensures Map(m) == PruneEmpty(v, Map(entries))
  {
    var r := PruneEmpty(v, Map(entries)).entries;
    forall k | k in m ensures k in r && r[k] == m[k] { }
    assert m == r;
  }

  lemma VisitOne(v: GoVal, entries: map<string, Json>, m: map<string, Json>, keys: set<string>, k: string)
    requires v.Dict? && keys <= v.values.Keys && k in keys && Visited(v, entries, m, keys)
    ensures k in m ==> Visited(v, entries, m[k := PruneEmpty(v.values[k], m[k])], keys - {k})
    ensures k !in m ==> Visited(v, entries, m, keys - {k})
  {
  }

  method PruneMapValues(v: GoVal, entries: map<string, Json>) returns (m: map<string, Json>)
    requires v.Dict?
    ensures Map(m) == PruneEmpty(v, Map(entries))
    decreases v, 1
  {
    m := entries;
    var keys := v.values.Keys;
    while keys != {}
      invariant keys <= v.values.Keys && Visited(v, entries, m, keys)
      decreases |keys|
    {
      var k :| k in keys;
      VisitOne(v, entries, m, keys, k);
      keys := keys - {k};
      if k in m {
        var child := PruneEmptyStructs(v.values[k], m[k]);
        m := m[k := child];
      }
    }
    AllVisited(v, entries, m);
  }
}
