/**
 * Sequences of identity slots where Zero marks an empty slot: the top-users
 * board and the follow lists are both kept this way.
 */
module Slots {
  import opened LedgerTypes

  /** Index of the first slot holding x, or |s| when no slot does. */
  function IndexOf(s: seq<Address>, x: Address): (i: nat)
    ensures i <= |s|
    ensures i < |s| ==> s[i] == x
    ensures forall j :: 0 <= j < i ==> s[j] != x
    ensures i == |s| <==> x !in s
  {
    if s == [] then 0 else if s[0] == x then 0 else 1 + IndexOf(s[1..], x)
  }

  /** No identity other than the sentinel occupies two slots. */
  ghost predicate NoDupNonzero(s: seq<Address>) {
    forall i, j :: 0 <= i < j < |s| && s[i] != Zero ==> s[i] != s[j]
  }

  /** Number of occupied (non-sentinel) slots. */
  function CountNonzero(s: seq<Address>): nat {
    if s == [] then 0 else CountNonzero(s[..|s| - 1]) + (if s[|s| - 1] != Zero then 1 else 0)
  }

  lemma CountAppend(s: seq<Address>, x: Address)
    ensures CountNonzero(s + [x]) == CountNonzero(s) + (if x != Zero then 1 else 0)
  {
    assert (s + [x])[..|s|] == s;
  }

  /** Clearing an occupied slot frees exactly one. */
  lemma {:induction false} CountClear(s: seq<Address>, i: nat)
    requires i < |s| && s[i] != Zero
    ensures CountNonzero(s[i := Zero]) + 1 == CountNonzero(s)
  {
    var n := |s| - 1;
    var t := s[i := Zero];
    if i == n {
      assert t[..n] == s[..n];
    } else {
      assert t[..n] == s[..n][i := Zero];
      CountClear(s[..n], i);
    }
  }

  /** Every identity is still present after the clear except the one cleared. */
  lemma ClearMembership(s: seq<Address>, i: nat, x: Address)
    requires i < |s| && NoDupNonzero(s) && x != Zero
    ensures x in s[i := Zero] <==> x in s && x != s[i]
  {
    if x in s && x != s[i] {
      var k :| 0 <= k < |s| && s[k] == x;
      assert s[i := Zero][k] == x;
    }
  }

  /** Clearing a slot keeps the slots free of duplicates. */
  lemma ClearNoDup(s: seq<Address>, i: nat)
    requires i < |s| && NoDupNonzero(s)
    ensures NoDupNonzero(s[i := Zero])
  {
  }

  /** Appending an identity not yet present keeps the slots free of duplicates. */
  lemma AppendNoDup(s: seq<Address>, x: Address)
    requires NoDupNonzero(s) && x !in s
    ensures NoDupNonzero(s + [x])
  {
  }
}
