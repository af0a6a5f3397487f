/** Membership toggles used by every picker of the application: job titles
    and CV/offer ids kept as arrays, and job ids kept in a `Set<string>`. */
module Selection {
  import opened Seqs

  /** `prev.includes(x) ? prev.filter(y => y !== x) : [...prev, x]`. */
  function Toggle<T(==,!new)>(s: seq<T>, x: T): (r: seq<T>)
    ensures x in r <==> x !in s
    ensures forall y :: y != x ==> (y in r <==> y in s)
    ensures x in s ==> Subsequence(r, s) && |r| < |s|
    ensures x in s ==> forall y :: y != x ==> multiset(r)[y] == multiset(s)[y]
    ensures x !in s ==> |r| == |s| + 1 && r[..|s|] == s && r[|s|] == x
    ensures NoDup(s) ==> NoDup(r)
  {
    if x in s then
      WithoutFacts(s, x);
      Without(s, x)
    else
      s + [x]
  }

  /** `s.filter(y => y !== x)`. */
  function Without<T(==)>(s: seq<T>, x: T): seq<T> {
    Filter(s, y => y != x)
  }

  /** Removing every copy of a present `x` keeps every copy of the other
      members, in order. */
  lemma WithoutFacts<T>(s: seq<T>, x: T)
    requires x in s
    ensures x !in Without(s, x)
    ensures forall y :: y != x ==> (y in Without(s, x) <==> y in s)
    ensures Subsequence(Without(s, x), s) && |Without(s, x)| < |s|
    ensures forall y :: y != x ==> multiset(Without(s, x))[y] == multiset(s)[y]
    ensures NoDup(s) ==> NoDup(Without(s, x))
  {
    var r := Without(s, x);
    FilterMembers(s, y => y != x);
    FilterMultiplicity(s, y => y != x);
    if NoDup(s) {
      SubsequenceNoDup(r, s);
    }
    if |r| == |s| {
      SubsequenceEqualLength(r, s);
    }
  }

  /** A sub-list as long as the list is the list itself. */
  lemma {:induction false} SubsequenceEqualLength<T>(r: seq<T>, s: seq<T>)
    requires Subsequence(r, s) && |r| == |s|
    ensures r == s
    decreases |s|
  {
    if |s| > 0 {
      if r[0] == s[0] && Subsequence(r[1..], s[1..]) {
        SubsequenceEqualLength(r[1..], s[1..]);
      } else {
        SubsequenceMembers(r, s[1..]);
      }
    }
  }

  /** Toggling an absent element twice restores the list. */
  lemma ToggleAbsentTwice<T(!new)>(s: seq<T>, x: T)
    requires x !in s
    ensures Toggle(Toggle(s, x), x) == s
  {
    var p := y => y != x;
    FilterAppend(s, [x], p);
    FilterAll(s, p);
    assert Filter([x], p) == [];
  }

  /** `new Set(prev)` with `x` deleted if present and added otherwise. */
  function ToggleSet<T(!new)>(s: set<T>, x: T): (r: set<T>)
    ensures x in r <==> x !in s
    ensures forall y :: y != x ==> (y in r <==> y in s)
  {
    if x in s then s - {x} else s + {x}
  }

  /** The set toggle is an involution. */
  lemma ToggleSetTwice<T(!new)>(s: set<T>, x: T)
    ensures ToggleSet(ToggleSet(s, x), x) == s
  {
  }

  /** The list toggle and the set toggle select the same elements. */
  lemma ToggleAgreesWithSet<T(!new)>(s: seq<T>, x: T)
    ensures Elements(Toggle(s, x)) == ToggleSet(Elements(s), x)
  {
    var r := Toggle(s, x);
    forall y ensures y in Elements(r) <==> y in ToggleSet(Elements(s), x) {
      if y in Elements(r) {
        var i :| 0 <= i < |r| && r[i] == y;
      }
      if y in Elements(s) {
        var i :| 0 <= i < |s| && s[i] == y;
      }
      if y in r {
        var i :| 0 <= i < |r| && r[i] == y;
      }
      if y in s {
        var i :| 0 <= i < |s| && s[i] == y;
      }
    }
  }
}
