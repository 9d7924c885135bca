/**
 * The profile page: which of the user's publications it asks for, in what
 * order, and which message it shows when a follow fails.
 */
module ProfilePage {
  import opened LedgerTypes
  import opened IdOrdering
  import opened LedgerSteps
  import opened FollowGraph

  /** Slots in a user's history of recent publication IDs; unused slots hold 0. */
  const HistorySlots: nat := 25

  function Reverse(s: seq<nat>): (r: seq<nat>)
    ensures |r| == |s|
    ensures forall i :: 0 <= i < |s| ==> r[i] == s[|s| - 1 - i]
  {
    if s == [] then [] else [s[|s| - 1]] + Reverse(s[..|s| - 1])
  }

  /**
   * The profile's history walk, for a history of any non-empty length (the
   * ABI's has HistorySlots slots; an empty one would make the page fail on
   * its first slot): a 0 in the first slot means the user has
   * not published; the history is sorted oldest first in place and then
   * walked from its end, asking for every slot that is not 0.
   */
  method ProfileRequests(lastPostsIDs: array<nat>) returns (noPosts: bool, requested: seq<nat>)
    requires lastPostsIDs.Length > 0
    modifies lastPostsIDs
    ensures noPosts <==> old(lastPostsIDs[0]) == 0
    ensures Ordered(lastPostsIDs[..], false)
    ensures multiset(lastPostsIDs[..]) == multiset(old(lastPostsIDs[..]))
    ensures requested == NonZero(Reverse(lastPostsIDs[..]))
    ensures Ordered(requested, true)
    ensures multiset(requested) == multiset(old(lastPostsIDs[..]))[0 := 0]
  {
    noPosts := lastPostsIDs[0] == 0;
    SortInPlace(lastPostsIDs, false);
    requested := WalkFromEnd(lastPostsIDs);
    ProfileRequestsSpec(lastPostsIDs[..]);
  }

  /** The reverse index loop: from the last slot down to slot 0, ask for every slot that is not 0. */
  method WalkFromEnd(a: array<nat>) returns (requested: seq<nat>)
    ensures requested == NonZero(Reverse(a[..]))
  {
    requested := [];
    var i := a.Length - 1;
    while i >= 0
      invariant -1 <= i < a.Length
      invariant requested == NonZero(Reverse(a[i + 1..]))
    {
      WalkOneMore(a[..], i);
      assert a[..][i..] == a[i..] && a[..][i + 1..] == a[i + 1..];
      if a[i] != 0 {
        requested := requested + [a[i]];
      }
      i := i - 1;
    }
    assert a[0..] == a[..];
  }

  /** One more step of the walk from the end: slot i joins what was asked for. */
  lemma WalkOneMore(h: seq<nat>, i: nat)
    requires i < |h|
    ensures NonZero(Reverse(h[i..])) == if h[i] != 0 then NonZero(Reverse(h[i + 1..])) + [h[i]] else NonZero(Reverse(h[i + 1..]))
  {
    ReverseOneMore(h, i);
    NonZeroAppend(Reverse(h[i + 1..]), h[i]);
  }

  lemma ReverseOneMore(s: seq<nat>, i: nat)
    requires i < |s|
    ensures Reverse(s[i..]) == Reverse(s[i + 1..]) + [s[i]]
  {
    assert s[i..][..|s[i..]| - 1] == s[i..|s| - 1];
    var r, r' := Reverse(s[i..]), Reverse(s[i + 1..]) + [s[i]];
    assert |r| == |r'|;
    forall k | 0 <= k < |r| ensures r[k] == r'[k] {
      if k < |r| - 1 {
        assert r'[k] == s[i + 1..][|s| - i - 2 - k];
      }
    }
  }

  /**
   * The profile asks for the user's non-zero history entries, newest first,
   * each as many times as the history holds it and nothing else.
   */
  lemma ProfileRequestsSpec(history: seq<nat>)
    requires Ordered(history, false)
    ensures Ordered(NonZero(Reverse(history)), true)
    ensures multiset(NonZero(Reverse(history))) == multiset(history)[0 := 0]
  {
    var r := Reverse(history);
    forall i, j | 0 <= i < j < |r| ensures r[i] >= r[j] {
      assert r[i] == history[|history| - 1 - i] && r[j] == history[|history| - 1 - j];
    }
    NonZeroKeepsOrder(r, true);
    NonZeroMultiset(r);
    ReverseMultiset(history);
  }

  lemma {:induction false} ReverseMultiset(s: seq<nat>)
    ensures multiset(Reverse(s)) == multiset(s)
  {
    if s != [] {
      assert s == s[..|s| - 1] + [s[|s| - 1]];
      ReverseMultiset(s[..|s| - 1]);
    }
  }

  // ----------------------------------------------------------- follow errors

  /** The ledger's refusal the profile page singles out. */
  const FollowLimitReason: string := "You can not follow more than 40 users"

  datatype Toast = FollowLimitReached | ActionFailed

  /** s holds t somewhere as a contiguous piece. */
  predicate Contains(s: string, t: string)
    decreases |s|
  {
    t <= s || (s != [] && Contains(s[1..], t))
  }

  /** The toast shown when a follow fails, picked by looking for the limit message in the error text. */
  function FollowErrorToast(message: string): Toast {
    if Contains(message, FollowLimitReason) then FollowLimitReached else ActionFailed
  }

  lemma {:induction false} ContainsInside(prefix: string, t: string, suffix: string)
    ensures Contains(prefix + t + suffix, t)
    decreases |prefix|
  {
    if prefix != [] {
      assert (prefix + t + suffix)[1..] == prefix[1..] + t + suffix;
      ContainsInside(prefix[1..], t, suffix);
    } else {
      assert prefix + t + suffix == t + suffix;
    }
  }

  lemma {:induction false} ShorterContainsNot(s: string, t: string)
    requires |s| < |t|
    ensures !Contains(s, t)
    decreases |s|
  {
    if s != [] {
      ShorterContainsNot(s[1..], t);
    }
  }

  /**
   * When the ledger refuses a follow because the caller already follows
   * forty users, the error text carries that refusal whatever surrounds it,
   * and the page shows the limit toast; the ledger's other two refusals of
   * a follow, on their own, give the generic toast.
   */
  lemma FollowLimitToast(users: map<Address, User>, caller: Address, target: Address, prefix: string, suffix: string)
    requires FollowCheck(users, caller, target).Revert?
    ensures FollowCheck(users, caller, target).reason == FollowLimitReason ==>
      FollowErrorToast(prefix + FollowCheck(users, caller, target).reason + suffix) == FollowLimitReached
    ensures FollowCheck(users, caller, target).reason != FollowLimitReason ==>
      FollowErrorToast(FollowCheck(users, caller, target).reason) == ActionFailed
    ensures FollowCheck(users, caller, target).reason == FollowLimitReason <==>
      target != caller && !Follows(users, caller, target) && UserOf(users, caller).followingsList.number >= FollowCap
  {
    var r := FollowCheck(users, caller, target).reason;
    if r == FollowLimitReason {
      ContainsInside(prefix, r, suffix);
    } else {
      ShorterContainsNot(r, FollowLimitReason);
    }
  }
}
