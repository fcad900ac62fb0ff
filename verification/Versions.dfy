/** Upgrade validation, and the operator's rollout it has to agree with. */
module Versions {
  import opened Wrappers
  import opened Semver

  datatype Component = PD | TiFlash | TiKV | TiDB

  /** The order TiDB Operator rolls a version change out in. */
  const UPGRADE_ORDER: seq<Component> := [PD, TiFlash, TiKV, TiDB]

  function Position(c: Component): nat
  {
    match c case PD => 0 case TiFlash => 1 case TiKV => 2 case TiDB => 3
  }

  predicate Before(a: Component, b: Component)
  {
    Position(a) < Position(b)
  }

  datatype Verdict =
    | Accepted
    | NotSemantic(name: Component)
    | OutOfOrder(name: Component, before: Component)
    | Downgrade(name: Component)

  /** Each running component's requested version: an explicit one wins, otherwise
      the version bundle supplies it; a disabled TiFlash has no target. */
  method TargetVersions(explicit: map<Component, Text>, bundle: map<Component, Text>, tiflash: bool)
    returns (target: map<Component, Text>)
    ensures forall c :: c in target <==> (c in explicit || c in bundle) && (c == TiFlash ==> tiflash)
    ensures forall c :: c in target ==> target[c] == if c in explicit then explicit[c] else bundle[c]
  {
    target := map[];
    for i := 0 to 4
      invariant forall c :: c in target <==> Position(c) < i && (c in explicit || c in bundle) && (c == TiFlash ==> tiflash)
      invariant forall c :: c in target ==> target[c] == if c in explicit then explicit[c] else bundle[c]
    {
      var name := UPGRADE_ORDER[i];
      if name != TiFlash || tiflash {
        if name in explicit {
          target := target[name := explicit[name]];
        } else if name in bundle {
          target := target[name := bundle[name]];
        }
      }
    }
  }

  /** How golang.org/x/mod/semver compares texts once they carry the "v": an
      invalid version is less than a valid one. */
  function CompareTexts(a: Text, b: Text): int
  {
    match (a.version, b.version)
    case (None, None) => 0
    case (None, Some(_)) => -1
    case (Some(_), None) => 1
    case (Some(v), Some(w)) => Compare(v, w)
  }

  ghost predicate AllSemantic(target: map<Component, Text>)
  {
    forall c :: c in target ==> target[c].version.Some?
  }

  /** No component targets a newer version than one upgraded before it. */
  ghost predicate Ordered(target: map<Component, Text>)
  {
    && AllSemantic(target)
    && forall b, c :: b in target && c in target && Before(b, c) ==> AtMost(target[c].version.value, target[b].version.value)
  }

  /** Both are versions, and the first comes before the second. */
  ghost predicate Older(a: Text, b: Text)
  {
    a.version.Some? && b.version.Some? && Precedes(a.version.value, b.version.value)
  }

  lemma OlderExactly(a: Text, b: Text)
    requires a.version.Some? && b.version.Some?
    ensures Older(a, b) <==> CompareTexts(b, a) > 0
    ensures Older(a, b) <==> CompareTexts(a, b) < 0
    ensures Older(a, b) <==> !AtMost(b.version.value, a.version.value)
  {
    CompareIsPrecedence(a.version.value, b.version.value);
    CompareIsPrecedence(b.version.value, a.version.value);
  }

  /** What the validation accepts, in the words of section 11 of Semantic Versioning:
      no target comes after that of a component upgraded before it. */
  lemma OrderedIsPrecedence(target: map<Component, Text>)
    ensures Ordered(target) <==>
            AllSemantic(target) && forall b, c :: b in target && c in target && Before(b, c) ==> !Older(target[b], target[c])
  {
    if AllSemantic(target) {
      forall b, c | b in target && c in target && Before(b, c)
        ensures AtMost(target[c].version.value, target[b].version.value) <==> !Older(target[b], target[c])
      {
        OlderExactly(target[b], target[c]);
      }
    }
  }

  /** The first component upgraded before this one that targets an older version. */
  method Overtaken(target: map<Component, Text>, name: Component) returns (before: Option<Component>)
    requires name in target && target[name].version.Some?
    requires forall b :: b in target && Before(b, name) ==> target[b].version.Some?
    ensures before.Some? ==>
              && before.value in target && Before(before.value, name)
              && !AtMost(target[name].version.value, target[before.value].version.value)
    ensures before.None? ==>
              forall b :: b in target && Before(b, name) ==> AtMost(target[name].version.value, target[b].version.value)
  {
    for j := 0 to Position(name)
      invariant forall b :: b in target && Position(b) < j ==> AtMost(target[name].version.value, target[b].version.value)
    {
      var before := UPGRADE_ORDER[j];
      if before in target && CompareTexts(target[name], target[before]) > 0 {
        return Some(before);
      }
    }
    return None;
  }

  method CheckUpgradeOrder(target: map<Component, Text>) returns (v: Verdict)
    ensures v.Accepted? <==> Ordered(target)
    ensures v.NotSemantic? ==> v.name in target && target[v.name].version.None?
    ensures v.OutOfOrder? ==>
              && v.name in target && v.before in target && Before(v.before, v.name)
              && target[v.name].version.Some? && target[v.before].version.Some?
              && !AtMost(target[v.name].version.value, target[v.before].version.value)
    ensures !v.Downgrade?
  {
    for i := 0 to 4
      invariant forall c :: c in target && Position(c) < i ==> target[c].version.Some?
      invariant forall b, c :: b in target && c in target && Before(b, c) && Position(c) < i ==>
                  AtMost(target[c].version.value, target[b].version.value)
    {
      var name := UPGRADE_ORDER[i];
      if name in target {
        if target[name].version.None? {
          return NotSemantic(name);
        }
        var before := Overtaken(target, name);
        if before.Some? {
          return OutOfOrder(name, before.value);
        }
      }
    }
    return Accepted;
  }

  /** No wanted component moves below what its group was last told to run. */
  ghost predicate NoDowngrade(current: map<Component, Text>, target: map<Component, Text>)
  {
    forall c :: c in current && c in target && current[c].version.Some? ==>
      target[c].version.Some? && AtMost(current[c].version.value, target[c].version.value)
  }

  method CheckNoDowngrade(current: map<Component, Text>, target: map<Component, Text>) returns (v: Verdict)
    ensures v.Accepted? <==> NoDowngrade(current, target)
    ensures v.Accepted? <==> forall c :: c in current && c in target && current[c].version.Some? ==>
                               target[c].version.Some? && !Older(target[c], current[c])
    ensures !v.Accepted? ==>
              && v.Downgrade? && v.name in current && v.name in target && current[v.name].version.Some?
              && (target[v.name].version.None? || Older(target[v.name], current[v.name]))
  {
    forall c | c in current && c in target && current[c].version.Some? && target[c].version.Some?
      ensures Older(target[c], current[c]) <==> CompareTexts(target[c], current[c]) < 0
      ensures Older(target[c], current[c]) <==> !AtMost(current[c].version.value, target[c].version.value)
    {
      OlderExactly(target[c], current[c]);
    }
    for i := 0 to 4
      invariant forall c :: c in current && c in target && Position(c) < i && current[c].version.Some? ==>
                  target[c].version.Some? && !Older(target[c], current[c])
    {
      var name := UPGRADE_ORDER[i];
      if name in current && name in target && current[name].version.Some? && CompareTexts(target[name], current[name]) < 0 {
        return Downgrade(name);
      }
    }
    return Accepted;
  }

  // ------------------------------------------------------- the operator's rollout

  type Running = map<Component, Version>

  ghost function Targets(target: map<Component, Text>): (t: Running)
    requires AllSemantic(target)
    ensures t.Keys == target.Keys
  {
    map c | c in target :: target[c].version.value
  }

  /** The operator rolls a component once every component before it runs at
      least the version it is to roll to. */
  ghost predicate CanRoll(running: Running, target: Running, c: Component)
  {
    && c in running && c in target && running[c] != target[c]
    && forall b :: b in target && b in running && Before(b, c) ==> AtMost(target[c], running[b])
  }

  ghost function Roll(running: Running, target: Running, c: Component): Running
  {
    if CanRoll(running, target, c) then running[c := target[c]] else running
  }

  ghost function Rolls(running: Running, target: Running, order: seq<Component>): Running
    decreases |order|
  {
    if order == [] then running else Rolls(Roll(running, target, order[0]), target, order[1..])
  }

  /** A cluster on its way to the target: nothing has overtaken it. */
  ghost predicate MidRollout(running: Running, target: Running)
  {
    running.Keys == target.Keys && forall c :: c in target ==> AtMost(running[c], target[c])
  }

  /** The components that do not run their target yet. */
  ghost function Behind(running: Running, target: Running): set<Component>
  {
    set c | c in running && c in target && running[c] != target[c]
  }

  lemma RollStaysMidRollout(running: Running, target: Running, c: Component)
    requires MidRollout(running, target)
    ensures MidRollout(Roll(running, target, c), target)
    ensures CanRoll(running, target, c) ==>
              Behind(Roll(running, target, c), target) == Behind(running, target) - {c} && c in Behind(running, target)
    ensures !CanRoll(running, target, c) ==> Roll(running, target, c) == running
  {
    if c in target { CompareIsTotal(target[c], target[c]); }
  }

  lemma FirstBehind(running: Running, target: Running) returns (c: Component)
    requires running.Keys == target.Keys && running != target
    ensures c in target && running[c] != target[c]
    ensures forall b :: b in target && Before(b, c) ==> running[b] == target[b]
  {
    var same := forall x :: x in target ==> running[x] == target[x];
    assert same ==> running == target;
    c :| c in target && running[c] != target[c];
    if TiKV in target && running[TiKV] != target[TiKV] && Before(TiKV, c) { c := TiKV; }
    if TiFlash in target && running[TiFlash] != target[TiFlash] && Before(TiFlash, c) { c := TiFlash; }
    if PD in target && running[PD] != target[PD] { c := PD; }
  }

  /** With an accepted target, the first component that is behind can roll. */
  lemma SomeComponentCanRoll(running: Running, target: map<Component, Text>) returns (c: Component)
    requires Ordered(target) && MidRollout(running, Targets(target)) && running != Targets(target)
    ensures CanRoll(running, Targets(target), c)
  {
    c := FirstBehind(running, Targets(target));
  }

  /** Every set the validation accepts reaches full rollout from any state on
      the way, and in no more rolls than there are components behind. */
  lemma {:induction false} AcceptedTargetsRollOut(running: Running, target: map<Component, Text>) returns (order: seq<Component>)
    requires Ordered(target) && MidRollout(running, Targets(target))
    ensures Rolls(running, Targets(target), order) == Targets(target)
    ensures |order| <= |Behind(running, Targets(target))|
    decreases |Behind(running, Targets(target))|
  {
    var t := Targets(target);
    if running == t {
      order := [];
    } else {
      var c := SomeComponentCanRoll(running, target);
      RollStaysMidRollout(running, t, c);
      var next := Roll(running, t, c);
      var rest := AcceptedTargetsRollOut(next, target);
      order := [c] + rest;
      assert order[1..] == rest;
    }
  }

  /** No choice of the operator's loses: after any rolls an accepted target can
      still be completed, and as long as it is not complete something can roll. */
  lemma {:induction false} NoRollIsADeadEnd(running: Running, target: map<Component, Text>, order: seq<Component>)
    requires Ordered(target) && MidRollout(running, Targets(target))
    ensures var r := Rolls(running, Targets(target), order);
      && MidRollout(r, Targets(target))
      && (r == Targets(target) <==> forall c :: !CanRoll(r, Targets(target), c))
    decreases |order|
  {
    if order == [] {
      if running != Targets(target) {
        var c := SomeComponentCanRoll(running, target);
      }
    } else {
      RollStaysMidRollout(running, Targets(target), order[0]);
      NoRollIsADeadEnd(Roll(running, Targets(target), order[0]), target, order[1..]);
    }
  }

  /** A component ahead of one before it stays where it is, whatever rolls. */
  lemma {:induction false} OvertakingComponentIsStuck(running: Running, target: Running, b: Component, c: Component, order: seq<Component>)
    requires MidRollout(running, target)
    requires b in target && c in target && Before(b, c) && !AtMost(target[c], target[b])
    ensures c in Rolls(running, target, order)
    ensures Rolls(running, target, order)[c] == running[c]
    decreases |order|
  {
    if order != [] {
      if CanRoll(running, target, c) {
        CompareIsTransitive(target[c], running[b], target[b]);
      }
      RollStaysMidRollout(running, target, order[0]);
      OvertakingComponentIsStuck(Roll(running, target, order[0]), target, b, c, order[1..]);
    }
  }

  /** Some order of rolls takes the cluster from running to its target. */
  ghost predicate CanComplete(running: Running, target: Running)
  {
    exists order :: Rolls(running, target, order) == target
  }

  /** The validation is exact for the operator's rule: a set of semantic versions
      is accepted if and only if it can be rolled out from every state on the way. */
  lemma AcceptanceIsExact(target: map<Component, Text>)
    requires AllSemantic(target)
    ensures Ordered(target) <==>
            forall running :: MidRollout(running, Targets(target)) ==> CanComplete(running, Targets(target))
  {
    var t := Targets(target);
    if Ordered(target) {
      forall running | MidRollout(running, t)
        ensures CanComplete(running, t)
      {
        var order := AcceptedTargetsRollOut(running, target);
      }
    } else {
      var running := DisorderedTargetsGetStuck(target);
    }
  }

  /** A set rejected for its order has a state on the way that never completes:
      the overtaking component still behind, everything else at its target. */
  lemma DisorderedTargetsGetStuck(target: map<Component, Text>) returns (running: Running)
    requires AllSemantic(target) && !Ordered(target)
    ensures MidRollout(running, Targets(target)) && !CanComplete(running, Targets(target))
  {
    var t := Targets(target);
    var b, c :| b in target && c in target && Before(b, c) && !AtMost(t[c], t[b]);
    running := t[c := t[b]];
    CompareIsTotal(t[b], t[c]);
    forall x | x in t ensures AtMost(running[x], t[x]) {
      CompareIsTotal(t[x], t[x]);
    }
    forall order ensures Rolls(running, t, order) != t {
      OvertakingComponentIsStuck(running, t, b, c, order);
    }
  }

  // --------------------------------------------------------- over a run of edits

  /** A user edit: the resolved targets, and whether TiFlash is enabled. */
  datatype Edit = Edit(target: map<Component, Text>, tiflash: bool)

  const NO_VERSION: Text := Text(false, None)

  /** What an accepted edit writes on the groups: a component without a target
      gets no version, a disabled TiFlash loses its group. */
  function Groups(e: Edit): map<Component, Text>
  {
    map c: Component | c in {PD, TiFlash, TiKV, TiDB} && (c == TiFlash ==> e.tiflash) ::
      if c in e.target then e.target[c] else NO_VERSION
  }

  ghost predicate AcceptedEdit(groups: map<Component, Text>, e: Edit)
  {
    Ordered(e.target) && NoDowngrade(groups, e.target)
  }

  ghost predicate AcceptedEdits(groups: map<Component, Text>, edits: seq<Edit>)
    decreases |edits|
  {
    edits == [] || (AcceptedEdit(groups, edits[0]) && AcceptedEdits(Groups(edits[0]), edits[1..]))
  }

  function Final(groups: map<Component, Text>, edits: seq<Edit>): map<Component, Text>
    decreases |edits|
  {
    if edits == [] then groups else Final(Groups(edits[0]), edits[1..])
  }

  /** Over any run of accepted edits that keep naming a version for a component,
      its version never decreases. */
  lemma {:induction false} VersionsNeverDecrease(groups: map<Component, Text>, edits: seq<Edit>, c: Component)
    requires AcceptedEdits(groups, edits)
    requires c in groups && groups[c].version.Some?
    requires forall i :: 0 <= i < |edits| ==> c in edits[i].target && (c == TiFlash ==> edits[i].tiflash)
    ensures c in Final(groups, edits) && Final(groups, edits)[c].version.Some?
    ensures AtMost(groups[c].version.value, Final(groups, edits)[c].version.value)
    decreases |edits|
  {
    if edits == [] {
      CompareIsTotal(groups[c].version.value, groups[c].version.value);
    } else {
      var next := Groups(edits[0]);
      assert edits[0].target[c].version.Some? && next[c] == edits[0].target[c];
      CompareIsTotal(groups[c].version.value, next[c].version.value);
      forall i | 0 <= i < |edits[1..]| ensures c in edits[1..][i].target && (c == TiFlash ==> edits[1..][i].tiflash) {
        assert edits[1..][i] == edits[i + 1];
      }
      VersionsNeverDecrease(next, edits[1..], c);
      CompareIsTransitive(groups[c].version.value, next[c].version.value, Final(next, edits[1..])[c].version.value);
    }
  }

  /** The condition is needed: an edit that names no version is accepted, and the
      one after it may go back to any version. */
  lemma UnversionedEditForgets(groups: map<Component, Text>, back: map<Component, Text>)
    requires Ordered(back)
    ensures AcceptedEdits(groups, [Edit(map[], true), Edit(back, true)])
    ensures Final(groups, [Edit(map[], true), Edit(back, true)]) == Groups(Edit(back, true))
  {
    var edits := [Edit(map[], true), Edit(back, true)];
    assert edits[1..] == [Edit(back, true)];
    assert edits[1..][1..] == [];
    assert NoDowngrade(Groups(edits[0]), back);
    assert AcceptedEdits(Groups(edits[0]), edits[1..]);
    assert Final(groups, edits) == Final(Groups(edits[0]), edits[1..]) == Final(Groups(edits[1]), edits[1..][1..]);
  }

  /** A disabled TiFlash has no target. */
  predicate WellFormed(e: Edit)
  {
    TiFlash in e.target ==> e.tiflash
  }

  /** Exactly when an accepted edit keeps the next one from going back: when it
      resolves a version for the component. The least version of all has nothing
      to go back to. */
  lemma ForgetsExactly(groups: map<Component, Text>, e: Edit, c: Component)
    requires AcceptedEdit(groups, e) && WellFormed(e)
    requires c in groups && groups[c].version.Some? && groups[c].version.value != LEAST
    ensures c in e.target <==>
            forall next :: AcceptedEdit(Groups(e), next) && WellFormed(next) && c in next.target ==>
              AtMost(groups[c].version.value, next.target[c].version.value)
  {
    if c in e.target {
      forall next | AcceptedEdit(Groups(e), next) && WellFormed(next) && c in next.target
        ensures AtMost(groups[c].version.value, next.target[c].version.value)
      {
        KeptVersion(groups, e, next, c);
      }
    } else {
      var next := Edit(map[c := Text(true, Some(LEAST))], true);
      LeastIsAtMost(groups[c].version.value);
      CompareIsTotal(LEAST, groups[c].version.value);
      CompareIsTotal(LEAST, LEAST);
      assert c in next.target && AcceptedEdit(Groups(e), next) && WellFormed(next);
    }
  }

  lemma KeptVersion(groups: map<Component, Text>, e: Edit, next: Edit, c: Component)
    requires AcceptedEdit(groups, e) && WellFormed(e) && AcceptedEdit(Groups(e), next)
    requires c in groups && groups[c].version.Some? && c in e.target && c in next.target
    ensures AtMost(groups[c].version.value, next.target[c].version.value)
  {
    var v, w, x := groups[c].version.value, e.target[c].version.value, next.target[c].version.value;
    assert Groups(e)[c] == e.target[c];
    CompareIsTotal(v, w);
    CompareIsTotal(w, x);
    CompareIsTransitive(v, w, x);
  }
}
