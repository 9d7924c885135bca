/**
 * The follow graph: each user's followings list and followers list, the
 * bookkeeping `follow` and `unfollow` do on both, and the invariant that the
 * two sides always agree.
 */
module FollowGraph {
  import opened LedgerTypes
  import opened Slots

  /** A follow list holds each identity at most once and counts exactly its occupied slots. */
  ghost predicate WellFormed(fl: FollowList) {
    NoDupNonzero(fl.followList) && fl.number == CountNonzero(fl.followList)
  }

  /** `follow` appends the identity in a new slot and counts it. */
  function Added(fl: FollowList, x: Address): FollowList {
    FollowList(fl.followList + [x], fl.number + 1)
  }

  /** `unfollow` overwrites the identity's slot with Zero and uncounts it. */
  function Removed(fl: FollowList, x: Address): FollowList
    requires x in fl.followList && fl.number > 0
  {
    FollowList(fl.followList[IndexOf(fl.followList, x) := Zero], fl.number - 1)
  }

  lemma AddedSpec(fl: FollowList, x: Address)
    requires WellFormed(fl) && x != Zero && x !in fl.followList
    ensures var r := Added(fl, x);
      && WellFormed(r)
      && r.number == fl.number + 1
      && |r.followList| == |fl.followList| + 1
      && r.followList[|fl.followList|] == x
      && (forall y :: y in r.followList <==> y in fl.followList || y == x)
  {
    AppendNoDup(fl.followList, x);
    CountAppend(fl.followList, x);
  }

  /** An occupied slot is counted, so a list holding x has a positive count. */
  lemma CountPositive(s: seq<Address>, x: Address)
    requires x != Zero && x in s
    ensures CountNonzero(s) > 0
  {
    CountClear(s, IndexOf(s, x));
  }

  lemma RemovedSpec(fl: FollowList, x: Address)
    requires WellFormed(fl) && x != Zero && x in fl.followList
    ensures fl.number > 0
    ensures var r := Removed(fl, x);
      && WellFormed(r)
      && r.number + 1 == fl.number
      && |r.followList| == |fl.followList|
      && r.followList[IndexOf(fl.followList, x)] == Zero
      && (forall y :: y != Zero ==> (y in r.followList <==> y in fl.followList && y != x))
  {
    var s, i := fl.followList, IndexOf(fl.followList, x);
    CountPositive(s, x);
    CountClear(s, i);
    ClearNoDup(s, i);
    forall y | y != Zero ensures y in s[i := Zero] <==> y in s && y != x {
      ClearMembership(s, i, y);
    }
  }

  /** A user's record, the empty record when nothing was ever written for it. */
  function UserOf(users: map<Address, User>, a: Address): User {
    if a in users then users[a] else EmptyUser
  }

  /** `doesFollow(a, b)`: b occupies a slot of a's followings list. */
  predicate Follows(users: map<Address, User>, a: Address, b: Address) {
    b != Zero && b in UserOf(users, a).followingsList.followList
  }

  /** a occupies a slot of b's followers list. */
  predicate FollowedBy(users: map<Address, User>, b: Address, a: Address) {
    a != Zero && a in UserOf(users, b).followersList.followList
  }

  /** Every list is well formed, and a follows b exactly when a is among b's followers. */
  ghost predicate GraphConsistent(users: map<Address, User>) {
    && (forall a :: WellFormed(UserOf(users, a).followingsList) && WellFormed(UserOf(users, a).followersList))
    && (forall a, b :: Follows(users, a, b) <==> FollowedBy(users, b, a))
  }

  /** The users after a follows b: b appended to a's followings, a to b's followers. */
  function AfterFollow(users: map<Address, User>, a: Address, b: Address): map<Address, User> {
    var ua := UserOf(users, a);
    var users1 := users[a := ua.(followingsList := Added(ua.followingsList, b))];
    var ub := UserOf(users1, b);
    users1[b := ub.(followersList := Added(ub.followersList, a))]
  }

  /** The users after a unfollows b: both slots zeroed, both counts decremented. */
  function AfterUnfollow(users: map<Address, User>, a: Address, b: Address): map<Address, User>
    requires a != b
    requires b in UserOf(users, a).followingsList.followList && UserOf(users, a).followingsList.number > 0
    requires a in UserOf(users, b).followersList.followList && UserOf(users, b).followersList.number > 0
  {
    var ua := UserOf(users, a);
    var users1 := users[a := ua.(followingsList := Removed(ua.followingsList, b))];
    var ub := UserOf(users1, b);
    users1[b := ub.(followersList := Removed(ub.followersList, a))]
  }

  /** Only the follow lists of the two parties change. */
  ghost predicate OnlyListsChanged(users: map<Address, User>, users': map<Address, User>) {
    forall x :: && UserOf(users', x).name == UserOf(users, x).name
                && UserOf(users', x).score == UserOf(users, x).score
                && UserOf(users', x).postsIDs == UserOf(users, x).postsIDs
                && UserOf(users', x).sftIDs == UserOf(users, x).sftIDs
  }

  /** users' differs from users in its lists only by b appended to a's followings and a to b's followers. */
  ghost predicate FollowEdit(users: map<Address, User>, users': map<Address, User>, a: Address, b: Address) {
    && (forall x :: x != a ==> UserOf(users', x).followingsList == UserOf(users, x).followingsList)
    && (forall y :: y != b ==> UserOf(users', y).followersList == UserOf(users, y).followersList)
    && UserOf(users', a).followingsList == Added(UserOf(users, a).followingsList, b)
    && UserOf(users', b).followersList == Added(UserOf(users, b).followersList, a)
  }

  lemma AfterFollowShape(users: map<Address, User>, a: Address, b: Address)
    requires a != b
    ensures FollowEdit(users, AfterFollow(users, a, b), a, b)
    ensures OnlyListsChanged(users, AfterFollow(users, a, b))
  {
    var ua := UserOf(users, a);
    var users1 := users[a := ua.(followingsList := Added(ua.followingsList, b))];
    assert UserOf(users1, b) == UserOf(users, b);
  }

  /** Under a follow edit, the only pair whose relation changes, on either side, is (a, b). */
  lemma FollowEditPair(users: map<Address, User>, users': map<Address, User>, a: Address, b: Address, x: Address, y: Address)
    requires a != b && FollowEdit(users, users', a, b)
    ensures Follows(users', x, y) <==> Follows(users, x, y) || (b != Zero && (x, y) == (a, b))
    ensures FollowedBy(users', y, x) <==> FollowedBy(users, y, x) || (a != Zero && (x, y) == (a, b))
  {
    if x == a {
      assert UserOf(users', x).followingsList.followList == UserOf(users, a).followingsList.followList + [b];
    }
    if y == b {
      assert UserOf(users', y).followersList.followList == UserOf(users, b).followersList.followList + [a];
    }
  }

  lemma FollowEditKeepsGraph(users: map<Address, User>, users': map<Address, User>, a: Address, b: Address)
    requires GraphConsistent(users) && a != b && a != Zero && b != Zero && !Follows(users, a, b)
    requires FollowEdit(users, users', a, b)
    ensures GraphConsistent(users')
    ensures forall x: Address, y: Address :: (x, y) != (a, b) ==> (Follows(users', x, y) <==> Follows(users, x, y))
  {
    assert !FollowedBy(users, b, a);
    AddedSpec(UserOf(users, a).followingsList, b);
    AddedSpec(UserOf(users, b).followersList, a);
    forall x ensures WellFormed(UserOf(users', x).followingsList) && WellFormed(UserOf(users', x).followersList) {
      assert WellFormed(UserOf(users, x).followingsList) && WellFormed(UserOf(users, x).followersList);
      if x == a {
        assert UserOf(users', x).followingsList == Added(UserOf(users, a).followingsList, b);
      } else {
        assert UserOf(users', x).followingsList == UserOf(users, x).followingsList;
      }
      if x == b {
        assert UserOf(users', x).followersList == Added(UserOf(users, b).followersList, a);
      } else {
        assert UserOf(users', x).followersList == UserOf(users, x).followersList;
      }
    }
    forall x: Address, y: Address
      ensures Follows(users', x, y) <==> FollowedBy(users', y, x)
      ensures (x, y) != (a, b) ==> (Follows(users', x, y) <==> Follows(users, x, y))
    {
      assert Follows(users, x, y) <==> FollowedBy(users, y, x);
      FollowEditPair(users, users', a, b, x, y);
    }
  }

  lemma FollowKeepsGraph(users: map<Address, User>, a: Address, b: Address)
    requires GraphConsistent(users) && a != b && a != Zero && b != Zero && !Follows(users, a, b)
    ensures var users' := AfterFollow(users, a, b);
      && GraphConsistent(users')
      && Follows(users', a, b)
      && (forall x: Address, y: Address :: (x, y) != (a, b) ==> (Follows(users', x, y) <==> Follows(users, x, y)))
      && UserOf(users', a).followingsList.number == UserOf(users, a).followingsList.number + 1
      && UserOf(users', b).followersList.number == UserOf(users, b).followersList.number + 1
      && UserOf(users', a).followingsList.followList == UserOf(users, a).followingsList.followList + [b]
      && UserOf(users', b).followersList.followList == UserOf(users, b).followersList.followList + [a]
      && OnlyListsChanged(users, users')
  {
    AfterFollowShape(users, a, b);
    FollowEditKeepsGraph(users, AfterFollow(users, a, b), a, b);
  }

  /** users' differs from users in its lists only by the removal of b from a's followings and of a from b's followers. */
  ghost predicate UnfollowEdit(users: map<Address, User>, users': map<Address, User>, a: Address, b: Address)
    requires b in UserOf(users, a).followingsList.followList && UserOf(users, a).followingsList.number > 0
    requires a in UserOf(users, b).followersList.followList && UserOf(users, b).followersList.number > 0
  {
    && (forall x :: x != a ==> UserOf(users', x).followingsList == UserOf(users, x).followingsList)
    && (forall y :: y != b ==> UserOf(users', y).followersList == UserOf(users, y).followersList)
    && UserOf(users', a).followingsList == Removed(UserOf(users, a).followingsList, b)
    && UserOf(users', b).followersList == Removed(UserOf(users, b).followersList, a)
  }

  lemma AfterUnfollowShape(users: map<Address, User>, a: Address, b: Address)
    requires a != b
    requires b in UserOf(users, a).followingsList.followList && UserOf(users, a).followingsList.number > 0
    requires a in UserOf(users, b).followersList.followList && UserOf(users, b).followersList.number > 0
    ensures UnfollowEdit(users, AfterUnfollow(users, a, b), a, b)
    ensures OnlyListsChanged(users, AfterUnfollow(users, a, b))
  {
    var ua := UserOf(users, a);
    var users1 := users[a := ua.(followingsList := Removed(ua.followingsList, b))];
    assert UserOf(users1, b) == UserOf(users, b);
  }

  /** Under an unfollow edit, the only pair whose relation changes, on either side, is (a, b). */
  lemma UnfollowEditPair(users: map<Address, User>, users': map<Address, User>, a: Address, b: Address, x: Address, y: Address)
    requires GraphConsistent(users) && a != b && a != Zero && b != Zero
    requires b in UserOf(users, a).followingsList.followList && UserOf(users, a).followingsList.number > 0
    requires a in UserOf(users, b).followersList.followList && UserOf(users, b).followersList.number > 0
    requires UnfollowEdit(users, users', a, b)
    ensures Follows(users', x, y) <==> Follows(users, x, y) && (x, y) != (a, b)
    ensures FollowedBy(users', y, x) <==> FollowedBy(users, y, x) && (x, y) != (a, b)
  {
    if x == a {
      RemovedSpec(UserOf(users, a).followingsList, b);
    }
    if y == b {
      RemovedSpec(UserOf(users, b).followersList, a);
    }
  }

  lemma UnfollowEditKeepsGraph(users: map<Address, User>, users': map<Address, User>, a: Address, b: Address)
    requires GraphConsistent(users) && a != b && a != Zero && b != Zero
    requires b in UserOf(users, a).followingsList.followList && UserOf(users, a).followingsList.number > 0
    requires a in UserOf(users, b).followersList.followList && UserOf(users, b).followersList.number > 0
    requires UnfollowEdit(users, users', a, b)
    ensures GraphConsistent(users')
    ensures !Follows(users', a, b)
    ensures forall x: Address, y: Address :: (x, y) != (a, b) ==> (Follows(users', x, y) <==> Follows(users, x, y))
  {
    RemovedSpec(UserOf(users, a).followingsList, b);
    RemovedSpec(UserOf(users, b).followersList, a);
    forall x ensures WellFormed(UserOf(users', x).followingsList) && WellFormed(UserOf(users', x).followersList) {
      assert WellFormed(UserOf(users, x).followingsList) && WellFormed(UserOf(users, x).followersList);
      if x == a {
        assert UserOf(users', x).followingsList == Removed(UserOf(users, a).followingsList, b);
      } else {
        assert UserOf(users', x).followingsList == UserOf(users, x).followingsList;
      }
      if x == b {
        assert UserOf(users', x).followersList == Removed(UserOf(users, b).followersList, a);
      } else {
        assert UserOf(users', x).followersList == UserOf(users, x).followersList;
      }
    }
    forall x: Address, y: Address
      ensures Follows(users', x, y) <==> FollowedBy(users', y, x)
      ensures (x, y) != (a, b) ==> (Follows(users', x, y) <==> Follows(users, x, y))
    {
      assert Follows(users, x, y) <==> FollowedBy(users, y, x);
      UnfollowEditPair(users, users', a, b, x, y);
    }
    UnfollowEditPair(users, users', a, b, a, b);
  }

  lemma UnfollowKeepsGraph(users: map<Address, User>, a: Address, b: Address)
    requires GraphConsistent(users) && a != b && a != Zero && Follows(users, a, b)
    ensures UserOf(users, a).followingsList.number > 0 && UserOf(users, b).followersList.number > 0
    ensures var users' := AfterUnfollow(users, a, b);
      && GraphConsistent(users')
      && !Follows(users', a, b)
      && (forall x: Address, y: Address :: (x, y) != (a, b) ==> (Follows(users', x, y) <==> Follows(users, x, y)))
      && UserOf(users', a).followingsList.number + 1 == UserOf(users, a).followingsList.number
      && UserOf(users', b).followersList.number + 1 == UserOf(users, b).followersList.number
      && UserOf(users', a).followingsList.followList
         == UserOf(users, a).followingsList.followList[IndexOf(UserOf(users, a).followingsList.followList, b) := Zero]
      && UserOf(users', b).followersList.followList
         == UserOf(users, b).followersList.followList[IndexOf(UserOf(users, b).followersList.followList, a) := Zero]
      && OnlyListsChanged(users, users')
  {
    assert FollowedBy(users, b, a);
    RemovedSpec(UserOf(users, a).followingsList, b);
    RemovedSpec(UserOf(users, b).followersList, a);
    AfterUnfollowShape(users, a, b);
    UnfollowEditKeepsGraph(users, AfterUnfollow(users, a, b), a, b);
  }

  /** Changes that leave every follow list alone keep the graph consistent. */
  lemma ListsUnchangedKeepGraph(users: map<Address, User>, users': map<Address, User>)
    requires GraphConsistent(users)
    requires forall x :: UserOf(users', x).followingsList == UserOf(users, x).followingsList
                      && UserOf(users', x).followersList == UserOf(users, x).followersList
    ensures GraphConsistent(users')
    ensures forall x, y :: Follows(users', x, y) <==> Follows(users, x, y)
  {
    forall x: Address, y: Address ensures Follows(users', x, y) <==> FollowedBy(users', y, x) {
      assert Follows(users, x, y) <==> FollowedBy(users, y, x);
    }
  }
}
