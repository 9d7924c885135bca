/**
 * Lists of publication IDs as the feeds handle them: sorted in place by
 * numeric value, stripped of repeated IDs keeping first occurrences (what
 * building a `Set` and reading it back does), and stripped of the zero
 * entries that stand for unused history slots.
 *
 * The interface turns IDs into decimal strings before sorting and
 * deduplicating them; decimal strings name numbers one to one
 * (Decimal.DecimalInjective) and "0" names 0 (Decimal.ZeroString), so the
 * lists are kept here as numbers.
 */
module IdOrdering {

  /** x may come before y: descending or ascending numeric order. */
  predicate Before(x: nat, y: nat, descending: bool) {
    if descending then x >= y else x <= y
  }

  predicate Ordered(s: seq<nat>, descending: bool) {
    forall i, j :: 0 <= i < j < |s| ==> Before(s[i], s[j], descending)
  }

  /** Ordered with no ID twice. */
  predicate StrictlyOrdered(s: seq<nat>, descending: bool) {
    forall i, j :: 0 <= i < j < |s| ==> Before(s[i], s[j], descending) && s[i] != s[j]
  }

  predicate NoDuplicates(s: seq<nat>) {
    forall i, j :: 0 <= i < j < |s| ==> s[i] != s[j]
  }

  // ----------------------------------------------------------------- sorting

  /**
   * The in-place numeric sort of the feeds (`sort` with `b - a` or `a - b`),
   * as an insertion sort: afterwards the array is ordered and holds the same
   * IDs as many times as before.
   */
  method SortInPlace(a: array<nat>, descending: bool)
    modifies a
    ensures Ordered(a[..], descending)
    ensures multiset(a[..]) == multiset(old(a[..]))
  {
    var i := 0;
    while i < a.Length
      invariant 0 <= i <= a.Length
      invariant forall k, l :: 0 <= k < l < i ==> Before(a[k], a[l], descending)
      invariant multiset(a[..]) == multiset(old(a[..]))
    {
      InsertDown(a, i, descending);
      i := i + 1;
    }
  }

  /** Moves a[i] down into the ordered prefix a[..i], so that a[..i+1] is ordered. */
  method InsertDown(a: array<nat>, i: nat, descending: bool)
    requires i < a.Length
    requires forall k, l :: 0 <= k < l < i ==> Before(a[k], a[l], descending)
    modifies a
    ensures forall k, l :: 0 <= k < l <= i ==> Before(a[k], a[l], descending)
    ensures multiset(a[..]) == multiset(old(a[..]))
  {
    var j := i;
    while j > 0 && !Before(a[j - 1], a[j], descending)
      invariant 0 <= j <= i
      invariant forall k, l :: 0 <= k < l <= i && l != j ==> Before(a[k], a[l], descending)
      invariant forall l :: j < l <= i ==> Before(a[j], a[l], descending)
      invariant multiset(a[..]) == multiset(old(a[..]))
    {
      a[j - 1], a[j] := a[j], a[j - 1];
      j := j - 1;
    }
  }

  // -------------------------------------------------------------- dedupe

  /** The list with every ID kept at its first occurrence only. */
  function Distinct(s: seq<nat>): (r: seq<nat>)
    ensures forall x :: x in r <==> x in s
    ensures NoDuplicates(r)
    ensures |r| <= |s|
  {
    if s == [] then []
    else
      var r := Distinct(s[..|s| - 1]);
      assert forall x :: x in s <==> x in s[..|s| - 1] || x == s[|s| - 1];
      if s[|s| - 1] in s[..|s| - 1] then r else r + [s[|s| - 1]]
  }

  /** Deduplicating an ordered list gives a strictly ordered one. */
  lemma {:induction false} DistinctOfOrdered(s: seq<nat>, descending: bool)
    requires Ordered(s, descending)
    ensures StrictlyOrdered(Distinct(s), descending)
  {
    if s != [] {
      var p, x := s[..|s| - 1], s[|s| - 1];
      assert Ordered(p, descending);
      DistinctOfOrdered(p, descending);
      if x !in p {
        var r := Distinct(p);
        forall k | 0 <= k < |r| ensures Before(r[k], x, descending) && r[k] != x {
          assert r[k] in p;
        }
      }
    }
  }

  /** The first ID of an ordered list comes before every ID in it. */
  lemma FirstIsExtreme(s: seq<nat>, descending: bool)
    requires s != [] && Ordered(s, descending)
    ensures forall x :: x in s ==> Before(s[0], x, descending)
  {
    forall x | x in s ensures Before(s[0], x, descending) {
      var i :| 0 <= i < |s| && s[i] == x;
      if i > 0 {
        assert Before(s[0], s[i], descending);
      }
    }
  }

  /**
   * Two strictly ordered lists with the same IDs are the same list: the
   * order in which the IDs arrived does not change what the feed shows.
   */
  lemma {:induction false} StrictlyOrderedUnique(s: seq<nat>, t: seq<nat>, descending: bool)
    requires StrictlyOrdered(s, descending) && StrictlyOrdered(t, descending)
    requires forall x :: x in s <==> x in t
    ensures s == t
    decreases |s|
  {
    if s != [] {
      assert s[0] in t;
    }
    if t != [] {
      assert t[0] in s;
    }
    if s != [] && t != [] {
      FirstIsExtreme(s, descending);
      FirstIsExtreme(t, descending);
      assert s[0] == t[0];
      forall x ensures x in s[1..] <==> x in t[1..] {
        if x in s[1..] {
          var i :| 1 <= i < |s| && s[i] == x;
          assert x in t && x != t[0];
          var m :| 0 <= m < |t| && t[m] == x;
          assert t[1..][m - 1] == x;
        }
        if x in t[1..] {
          var i :| 1 <= i < |t| && t[i] == x;
          assert x in s && x != s[0];
          var m :| 0 <= m < |s| && s[m] == x;
          assert s[1..][m - 1] == x;
        }
      }
      StrictlyOrderedUnique(s[1..], t[1..], descending);
    }
  }

  // ------------------------------------------------------------ zero slots

  /** The list without the zero entries. */
  function NonZero(s: seq<nat>): (r: seq<nat>)
    ensures forall x :: x in r <==> x in s && x != 0
    ensures |r| <= |s|
  {
    if s == [] then []
    else
      var r := NonZero(s[..|s| - 1]);
      assert forall x :: x in s <==> x in s[..|s| - 1] || x == s[|s| - 1];
      if s[|s| - 1] != 0 then r + [s[|s| - 1]] else r
  }

  lemma NonZeroAppend(s: seq<nat>, x: nat)
    ensures NonZero(s + [x]) == if x != 0 then NonZero(s) + [x] else NonZero(s)
  {
    assert (s + [x])[..|s|] == s;
  }

  /** Dropping zeros keeps the order, and the strict order, of what remains. */
  lemma {:induction false} NonZeroKeepsOrder(s: seq<nat>, descending: bool)
    ensures Ordered(s, descending) ==> Ordered(NonZero(s), descending)
    ensures StrictlyOrdered(s, descending) ==> StrictlyOrdered(NonZero(s), descending)
  {
    if s != [] {
      var p, x := s[..|s| - 1], s[|s| - 1];
      NonZeroKeepsOrder(p, descending);
      var r := NonZero(p);
      if Ordered(s, descending) {
        assert Ordered(p, descending);
        forall k | 0 <= k < |r| ensures Before(r[k], x, descending) {
          assert r[k] in p;
        }
      }
      if StrictlyOrdered(s, descending) {
        assert StrictlyOrdered(p, descending);
        forall k | 0 <= k < |r| ensures Before(r[k], x, descending) && r[k] != x {
          assert r[k] in p;
        }
      }
    }
  }

  /** Dropping zeros removes every 0 and keeps every other ID as often as it was there. */
  lemma {:induction false} NonZeroMultiset(s: seq<nat>)
    ensures multiset(NonZero(s)) == multiset(s)[0 := 0]
  {
    if s != [] {
      var p, x := s[..|s| - 1], s[|s| - 1];
      assert s == p + [x];
      NonZeroMultiset(p);
    }
  }
}
