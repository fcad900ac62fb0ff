/** Semantic version precedence, section 11 of Semantic Versioning 2.0.0, as
    golang.org/x/mod/semver compares versions. Build metadata has no precedence
    and is dropped on parsing, which is not part of this model. */
module Semver {
  import opened Wrappers

  datatype Identifier = Numeric(n: nat) | Word(text: string)

  datatype Version = Version(major: nat, minor: nat, patch: nat, pre: seq<Identifier>)

  /** A version as it is written: with or without the leading "v", and what
      follows, None when it is not a semantic version. */
  datatype Text = Text(prefixed: bool, version: Option<Version>)

  function CompareNat(a: int, b: int): int
  {
    if a < b then -1 else if a > b then 1 else 0
  }

  function CompareText(a: string, b: string): int
  {
    if a == [] && b == [] then 0
    else if a == [] then -1
    else if b == [] then 1
    else if a[0] != b[0] then CompareNat(a[0] as int, b[0] as int)
    else CompareText(a[1..], b[1..])
  }

  /** Numeric identifiers compare as numbers and come before words. */
  function CompareIdentifier(a: Identifier, b: Identifier): int
  {
    match (a, b)
    case (Numeric(m), Numeric(n)) => CompareNat(m, n)
    case (Numeric(_), Word(_)) => -1
    case (Word(_), Numeric(_)) => 1
    case (Word(s), Word(t)) => CompareText(s, t)
  }

  function CompareIdentifiers(a: seq<Identifier>, b: seq<Identifier>): int
  {
    if a == [] && b == [] then 0
    else if a == [] then -1
    else if b == [] then 1
    else if a[0] != b[0] then CompareIdentifier(a[0], b[0])
    else CompareIdentifiers(a[1..], b[1..])
  }

  /** A release comes after all of its pre-releases. */
  function ComparePre(a: seq<Identifier>, b: seq<Identifier>): int
  {
    if a == b then 0
    else if a == [] then 1
    else if b == [] then -1
    else CompareIdentifiers(a, b)
  }

  function Compare(a: Version, b: Version): int
  {
    if a.major != b.major then CompareNat(a.major, b.major)
    else if a.minor != b.minor then CompareNat(a.minor, b.minor)
    else if a.patch != b.patch then CompareNat(a.patch, b.patch)
    else ComparePre(a.pre, b.pre)
  }

  predicate AtMost(a: Version, b: Version)
  {
    Compare(a, b) <= 0
  }

  // ------------------------------------------------------------- section 11

  /** Words compare by their characters, and a proper prefix comes first. */
  ghost predicate WordPrecedes(a: string, b: string)
  {
    exists i :: 0 <= i < |b| && i <= |a| && a[..i] == b[..i] && (i == |a| || a[i] < b[i])
  }

  /** Numbers compare by value and come before words. */
  ghost predicate IdentifierPrecedes(a: Identifier, b: Identifier)
  {
    || (a.Numeric? && b.Numeric? && a.n < b.n)
    || (a.Numeric? && b.Word?)
    || (a.Word? && b.Word? && WordPrecedes(a.text, b.text))
  }

  /** The first identifier that differs decides; a proper prefix comes first. */
  ghost predicate PrePrecedes(a: seq<Identifier>, b: seq<Identifier>)
  {
    exists i :: 0 <= i < |b| && i <= |a| && a[..i] == b[..i] && (i == |a| || IdentifierPrecedes(a[i], b[i]))
  }

  function Core(v: Version): seq<nat>
  {
    [v.major, v.minor, v.patch]
  }

  /** The precedence of section 11: the first of major, minor and patch that
      differs decides; with all three equal a pre-release comes before the release,
      and two pre-releases compare by their identifiers. */
  ghost predicate Precedes(a: Version, b: Version)
  {
    || (exists i :: 0 <= i < 3 && Core(a)[..i] == Core(b)[..i] && Core(a)[i] < Core(b)[i])
    || (Core(a) == Core(b) && a.pre != [] && b.pre == [])
    || (Core(a) == Core(b) && a.pre != [] && b.pre != [] && PrePrecedes(a.pre, b.pre))
  }

  lemma {:induction false} CompareTextIsPrecedence(a: string, b: string)
    ensures CompareText(a, b) < 0 <==> WordPrecedes(a, b)
  {
    if a != [] && b != [] && a[0] == b[0] {
      CompareTextIsPrecedence(a[1..], b[1..]);
      if WordPrecedes(a[1..], b[1..]) {
        var i :| 0 <= i < |b[1..]| && i <= |a[1..]| && a[1..][..i] == b[1..][..i] && (i == |a[1..]| || a[1..][i] < b[1..][i]);
        assert a[..i + 1] == [a[0]] + a[1..][..i] && b[..i + 1] == [b[0]] + b[1..][..i];
      }
      if WordPrecedes(a, b) {
        var i :| 0 <= i < |b| && i <= |a| && a[..i] == b[..i] && (i == |a| || a[i] < b[i]);
        assert i > 0 && a[1..][..i - 1] == a[..i][1..] && b[1..][..i - 1] == b[..i][1..];
      }
    } else if b != [] {
      assert a[..0] == b[..0];
      forall i | 0 < i <= |a| && i < |b| ensures a[..i] != b[..i] {
        assert a[..i][0] != b[..i][0];
      }
    }
  }

  lemma IdentifierIsPrecedence(a: Identifier, b: Identifier)
    ensures CompareIdentifier(a, b) < 0 <==> IdentifierPrecedes(a, b)
  {
    if a.Word? && b.Word? { CompareTextIsPrecedence(a.text, b.text); }
  }

  lemma {:induction false} IdentifiersIsPrecedence(a: seq<Identifier>, b: seq<Identifier>)
    ensures CompareIdentifiers(a, b) < 0 <==> PrePrecedes(a, b)
  {
    if a != [] && b != [] && a[0] == b[0] {
      IdentifiersIsPrecedence(a[1..], b[1..]);
      IdentifierOrder(a[0], a[0]);
      IdentifierIsPrecedence(a[0], a[0]);
      if PrePrecedes(a[1..], b[1..]) {
        var i :| 0 <= i < |b[1..]| && i <= |a[1..]| && a[1..][..i] == b[1..][..i]
                 && (i == |a[1..]| || IdentifierPrecedes(a[1..][i], b[1..][i]));
        assert a[..i + 1] == [a[0]] + a[1..][..i] && b[..i + 1] == [b[0]] + b[1..][..i];
      }
      if PrePrecedes(a, b) {
        var i :| 0 <= i < |b| && i <= |a| && a[..i] == b[..i] && (i == |a| || IdentifierPrecedes(a[i], b[i]));
        assert i > 0 && a[1..][..i - 1] == a[..i][1..] && b[1..][..i - 1] == b[..i][1..];
      }
    } else if b != [] {
      assert a[..0] == b[..0];
      forall i | 0 < i <= |a| && i < |b| ensures a[..i] != b[..i] {
        assert a[..i][0] != b[..i][0];
      }
      if a != [] { IdentifierIsPrecedence(a[0], b[0]); }
    }
  }

  lemma CoreDiffers(a: Version, b: Version)
    ensures (exists i :: 0 <= i < 3 && Core(a)[..i] == Core(b)[..i] && Core(a)[i] < Core(b)[i]) <==>
            || a.major < b.major
            || (a.major == b.major && a.minor < b.minor)
            || (a.major == b.major && a.minor == b.minor && a.patch < b.patch)
  {
    var x, y := Core(a), Core(b);
    assert x[..0] == y[..0];
    assert x[..1] == [a.major] && y[..1] == [b.major];
    assert x[..2] == [a.major, a.minor] && y[..2] == [b.major, b.minor];
    assert a.major < b.major ==> x[0] < y[0];
    assert a.minor < b.minor ==> x[1] < y[1];
    assert a.patch < b.patch ==> x[2] < y[2];
  }

  /** The comparison is the precedence of section 11. */
  lemma CompareIsPrecedence(a: Version, b: Version)
    ensures Compare(a, b) < 0 <==> Precedes(a, b)
    ensures Compare(a, b) > 0 <==> Precedes(b, a)
    ensures Compare(a, b) == 0 <==> a == b
    ensures AtMost(a, b) <==> !Precedes(b, a)
  {
    CompareIsTotal(a, b);
    ComparePrecedes(a, b);
    ComparePrecedes(b, a);
  }

  lemma ComparePrecedes(a: Version, b: Version)
    ensures Compare(a, b) < 0 <==> Precedes(a, b)
  {
    CoreDiffers(a, b);
    IdentifiersOrder(a.pre, b.pre);
    IdentifiersIsPrecedence(a.pre, b.pre);
  }

  // ------------------------------------------------------------- a total order

  lemma {:induction false} TextOrder(a: string, b: string)
    ensures CompareText(a, b) == -CompareText(b, a)
    ensures CompareText(a, b) == 0 <==> a == b
    ensures -1 <= CompareText(a, b) <= 1
  {
    if a != [] && b != [] {
      TextOrder(a[1..], b[1..]);
      assert a == [a[0]] + a[1..] && b == [b[0]] + b[1..];
    }
  }

  lemma {:induction false} TextTransitive(a: string, b: string, c: string)
    requires CompareText(a, b) <= 0 && CompareText(b, c) <= 0
    ensures CompareText(a, c) <= 0
  {
    if a != [] && b != [] && c != [] && a[0] == b[0] == c[0] {
      TextTransitive(a[1..], b[1..], c[1..]);
    }
  }

  lemma IdentifierOrder(a: Identifier, b: Identifier)
    ensures CompareIdentifier(a, b) == -CompareIdentifier(b, a)
    ensures CompareIdentifier(a, b) == 0 <==> a == b
    ensures -1 <= CompareIdentifier(a, b) <= 1
  {
    if a.Word? && b.Word? { TextOrder(a.text, b.text); }
  }

  lemma IdentifierTransitive(a: Identifier, b: Identifier, c: Identifier)
    requires CompareIdentifier(a, b) <= 0 && CompareIdentifier(b, c) <= 0
    ensures CompareIdentifier(a, c) <= 0
  {
    if a.Word? && b.Word? && c.Word? { TextTransitive(a.text, b.text, c.text); }
  }

  lemma {:induction false} IdentifiersOrder(a: seq<Identifier>, b: seq<Identifier>)
    ensures CompareIdentifiers(a, b) == -CompareIdentifiers(b, a)
    ensures CompareIdentifiers(a, b) == 0 <==> a == b
    ensures -1 <= CompareIdentifiers(a, b) <= 1
  {
    if a != [] && b != [] {
      IdentifierOrder(a[0], b[0]);
      IdentifiersOrder(a[1..], b[1..]);
      assert a == [a[0]] + a[1..] && b == [b[0]] + b[1..];
    }
  }

  lemma {:induction false} IdentifiersTransitive(a: seq<Identifier>, b: seq<Identifier>, c: seq<Identifier>)
    requires CompareIdentifiers(a, b) <= 0 && CompareIdentifiers(b, c) <= 0
    ensures CompareIdentifiers(a, c) <= 0
  {
    if a != [] && b != [] && c != [] {
      IdentifierOrder(a[0], b[0]);
      IdentifierOrder(b[0], c[0]);
      IdentifierOrder(a[0], c[0]);
      if a[0] == b[0] == c[0] {
        IdentifiersTransitive(a[1..], b[1..], c[1..]);
      } else {
        IdentifierTransitive(a[0], b[0], c[0]);
      }
    }
  }

  lemma CompareIsTotal(a: Version, b: Version)
    ensures Compare(a, b) == -Compare(b, a)
    ensures Compare(a, b) == 0 <==> a == b
    ensures AtMost(a, b) || AtMost(b, a)
    ensures -1 <= Compare(a, b) <= 1
  {
    IdentifiersOrder(a.pre, b.pre);
  }

  /** Precedence is a strict total order: exactly one of before, equal and after. */
  lemma PrecedenceIsTotal(a: Version, b: Version)
    ensures Precedes(a, b) || Precedes(b, a) || a == b
    ensures !(Precedes(a, b) && Precedes(b, a)) && !Precedes(a, a)
  {
    CompareIsPrecedence(a, b);
    CompareIsPrecedence(a, a);
  }

  lemma CompareIsTransitive(a: Version, b: Version, c: Version)
    requires AtMost(a, b) && AtMost(b, c)
    ensures AtMost(a, c)
  {
    IdentifiersOrder(a.pre, b.pre);
    IdentifiersOrder(b.pre, c.pre);
    IdentifiersOrder(a.pre, c.pre);
    if a.major == b.major == c.major && a.minor == b.minor == c.minor && a.patch == b.patch == c.patch
       && a.pre != [] && b.pre != [] && c.pre != [] {
      IdentifiersTransitive(a.pre, b.pre, c.pre);
    }
  }

  /** Precedence is transitive, also through equal versions. */
  lemma PrecedenceIsTransitive(a: Version, b: Version, c: Version)
    requires !Precedes(b, a) && !Precedes(c, b)
    ensures !Precedes(c, a)
    ensures Precedes(a, b) || Precedes(b, c) ==> Precedes(a, c)
  {
    CompareIsPrecedence(a, b);
    CompareIsPrecedence(b, c);
    CompareIsPrecedence(a, c);
    CompareIsTransitive(a, b, c);
    if a == c { CompareIsPrecedence(a, a); }
  }

  /** The least version of all. */
  const LEAST: Version := Version(0, 0, 0, [Numeric(0)])

  lemma LeastIsAtMost(v: Version)
    ensures AtMost(LEAST, v)
  {
    if v.major == v.minor == v.patch == 0 && v.pre != [] && v.pre[0] == Numeric(0) {
      assert CompareIdentifiers(LEAST.pre, v.pre) == CompareIdentifiers([], v.pre[1..]);
    }
  }
}
