/**
 * Which publication IDs the three feeds request, and in what order: the
 * explore feed walks down from the newest ID in windows of forty, the home
 * feed sorts, deduplicates and pages the histories of the followed users
 * and the reader, and the category feed sorts and deduplicates the
 * category index.  Fetching and rendering are left out: a feed's result is
 * the list of IDs it asks for, in the order it asks for them.
 */
module Feeds {
  import opened LedgerTypes
  import opened IdOrdering
  import opened LedgerSteps

  /** Publications requested per page of a feed. */
  const PageSize: nat := 40

  function Min(a: int, b: int): int {
    if a <= b then a else b
  }

  // ------------------------------------------------------------ explore feed

  /** The newest publication ID: one below the ledger's next unused ID. */
  function LastPostID(nextUnusedPublicationID: nat): int {
    nextUnusedPublicationID - 1
  }

  /**
   * The IDs page `page` of the explore feed asks for: from
   * lastPostID - 40 * page down, at most forty of them, stopping before 0;
   * none when lastPostID is 0.
   */
  function ExploreIDs(lastPostID: int, page: nat): seq<int> {
    if lastPostID == 0 then []
    else
      var top := lastPostID - PageSize * page;
      var n := if top <= 0 then 0 else Min(PageSize, top);
      seq(n, k requires 0 <= k < n => top - k)
  }

  /**
   * One page of the explore feed: the loop counts down through the window
   * of forty IDs and stops, marking the feed complete, on the first ID that
   * is not positive.
   */
  method ExplorePage(lastPostID: int, page: nat) returns (requested: seq<int>, allPostsDisplayed: bool)
    ensures requested == ExploreIDs(lastPostID, page)
    ensures allPostsDisplayed <==> lastPostID != 0 && lastPostID < PageSize * (page + 1)
  {
    requested := [];
    allPostsDisplayed := false;
    if lastPostID != 0 {
      var top := lastPostID - PageSize * page;
      var i := top;
      while i > lastPostID - PageSize * (page + 1)
        invariant top - PageSize <= i <= top
        invariant i < 0 ==> i == top
        invariant requested == seq(top - i, k requires 0 <= k < top - i => top - k)
        decreases i
      {
        if i <= 0 {
          allPostsDisplayed := true;
          break;
        }
        requested := requested + [i];
        i := i - 1;
      }
    }
  }

  /**
   * A page asks for positive IDs in strictly decreasing order, at most
   * forty, and exactly the IDs of its window that are positive.
   */
  lemma ExploreIDsShape(lastPostID: int, page: nat)
    ensures var r := ExploreIDs(lastPostID, page);
      && |r| <= PageSize
      && (forall i, j :: 0 <= i < j < |r| ==> r[i] > r[j])
      && (forall x :: x in r <==>
            lastPostID != 0 && 0 < x && lastPostID - PageSize * (page + 1) < x <= lastPostID - PageSize * page)
  {
    var r := ExploreIDs(lastPostID, page);
    if lastPostID != 0 {
      var top := lastPostID - PageSize * page;
      forall x | 0 < x && top - PageSize < x <= top ensures x in r {
        assert r[top - x] == x;
      }
    }
  }

  /** Two different pages never ask for the same ID. */
  lemma ExplorePagesDisjoint(lastPostID: int, p: nat, q: nat, x: int)
    requires p != q
    ensures !(x in ExploreIDs(lastPostID, p) && x in ExploreIDs(lastPostID, q))
  {
    ExploreIDsShape(lastPostID, p);
    ExploreIDsShape(lastPostID, q);
  }

  /**
   * Pages 0..k together ask for exactly the 40 * (k + 1) newest IDs, or all
   * of them when there are fewer.
   */
  lemma ExplorePagesCover(lastPostID: nat, k: nat, x: int)
    ensures (exists p: nat :: p <= k && x in ExploreIDs(lastPostID, p)) <==>
      0 < x <= lastPostID && lastPostID - PageSize * (k + 1) < x
  {
    if 0 < x <= lastPostID && lastPostID - PageSize * (k + 1) < x {
      var p: nat := (lastPostID - x) / PageSize;
      ExploreIDsShape(lastPostID, p);
      assert x in ExploreIDs(lastPostID, p);
    }
    forall p: nat | p <= k && x in ExploreIDs(lastPostID, p)
      ensures 0 < x <= lastPostID && lastPostID - PageSize * (k + 1) < x
    {
      ExploreIDsShape(lastPostID, p);
    }
  }

  /**
   * Every publication of the ledger is on some page of the explore feed:
   * none is newer than the ID the feed starts from, and none is 0.
   */
  lemma ExploreReachesEveryPublication(s: LedgerState, id: nat)
    requires Invariant(s) && id in s.publications
    ensures LastPostID(s.nextUnusedPublicationID) >= 1
    ensures exists p: nat :: id in ExploreIDs(LastPostID(s.nextUnusedPublicationID), p)
  {
    var last := LastPostID(s.nextUnusedPublicationID);
    assert 1 <= id < s.nextUnusedPublicationID;
    var k: nat := (last - id) / PageSize;
    ExplorePagesCover(last, k, id);
  }

  // --------------------------------------------------------------- home feed

  /** The slice of the deduplicated list that page `page` walks through. */
  function PageWindow(list: seq<nat>, page: nat): seq<nat> {
    list[Min(PageSize * page, |list|)..Min(PageSize * (page + 1), |list|)]
  }

  /**
   * One page of the home feed over the deduplicated list: the loop visits
   * indices 40 * page .. 40 * page + 39 that exist, skips the zero entries,
   * and marks the feed complete when it reaches the last index.
   */
  method HomePage(list: seq<nat>, page: nat) returns (requested: seq<nat>, allPostsDisplayed: bool)
    ensures requested == NonZero(PageWindow(list, page))
    ensures allPostsDisplayed <==> PageSize * page <= |list| - 1 < PageSize * (page + 1)
  {
    requested := [];
    allPostsDisplayed := false;
    var lo := Min(PageSize * page, |list|);
    var i := PageSize * page;
    while i < PageSize * (page + 1) && i < |list|
      invariant PageSize * page <= i <= PageSize * (page + 1)
      invariant i == PageSize * page || i <= |list|
      invariant requested == NonZero(list[lo..Min(i, |list|)])
      invariant allPostsDisplayed <==> PageSize * page <= |list| - 1 < i
    {
      NonZeroAppend(list[lo..i], list[i]);
      assert list[lo..i + 1] == list[lo..i] + [list[i]];
      if list[i] != 0 {
        requested := requested + [list[i]];
      }
      if i == |list| - 1 {
        allPostsDisplayed := true;
      }
      i := i + 1;
    }
  }

  /** Where an ID sits in a list, or |list| when it is not there. */
  function Position(list: seq<nat>, x: nat): (i: nat)
    ensures i <= |list|
    ensures i < |list| ==> list[i] == x
    ensures i == |list| <==> x !in list
  {
    if list == [] then 0 else if list[0] == x then 0 else 1 + Position(list[1..], x)
  }

  /**
   * On a list without repeats, an ID is asked for on page k exactly when it
   * is not 0 and sits among indices 40k .. 40k + 39: every non-zero ID is
   * shown on one page and one only.
   */
  lemma HomePageMembership(list: seq<nat>, page: nat, x: nat)
    requires NoDuplicates(list)
    ensures x in NonZero(PageWindow(list, page)) <==>
      x != 0 && x in list && Position(list, x) / PageSize == page
  {
    var lo, hi := Min(PageSize * page, |list|), Min(PageSize * (page + 1), |list|);
    var w := PageWindow(list, page);
    if x in w {
      var k :| 0 <= k < |w| && w[k] == x;
      assert list[lo + k] == x;
      assert Position(list, x) == lo + k;
    }
    if x != 0 && x in list && Position(list, x) / PageSize == page {
      var i := Position(list, x);
      assert w[i - lo] == x;
    }
  }

  /**
   * The home feed: sort the merged histories newest first in place, drop
   * repeats, then walk page `page`.  The IDs asked for are the page's
   * non-zero IDs of that list, newest first, each one at most once, all
   * taken from the histories.
   */
  method HomeFeedPage(postsList: array<nat>, page: nat) returns (requested: seq<nat>, allPostsDisplayed: bool)
    modifies postsList
    ensures Ordered(postsList[..], true)
    ensures multiset(postsList[..]) == multiset(old(postsList[..]))
    ensures requested == NonZero(PageWindow(Distinct(postsList[..]), page))
    ensures StrictlyOrdered(requested, true)
    ensures forall x :: x in requested ==> x != 0 && x in old(postsList[..])
    ensures allPostsDisplayed <==> PageSize * page <= |Distinct(postsList[..])| - 1 < PageSize * (page + 1)
  {
    SortInPlace(postsList, true);
    var list := Distinct(postsList[..]);
    DistinctOfOrdered(postsList[..], true);
    requested, allPostsDisplayed := HomePage(list, page);
    WindowKeepsOrder(list, page);
    NonZeroKeepsOrder(PageWindow(list, page), true);
    assert forall x :: x in postsList[..] <==> x in multiset(postsList[..]);
    forall x | x in requested ensures x != 0 && x in old(postsList[..]) {
      assert x in PageWindow(list, page);
      assert x in multiset(old(postsList[..]));
    }
  }

  lemma WindowKeepsOrder(list: seq<nat>, page: nat)
    requires StrictlyOrdered(list, true)
    ensures StrictlyOrdered(PageWindow(list, page), true)
  {
    var lo := Min(PageSize * page, |list|);
    var w := PageWindow(list, page);
    forall i, j | 0 <= i < j < |w| ensures w[i] >= w[j] && w[i] != w[j] {
      assert w[i] == list[lo + i] && w[j] == list[lo + j];
    }
  }

  /**
   * Once every history fetch has returned, the list the home feed pages
   * through depends only on which IDs the histories hold, not on the order
   * in which their fetches returned.
   */
  lemma HomeListIndependentOfArrival(a: seq<nat>, b: seq<nat>)
    requires Ordered(a, true) && Ordered(b, true)
    requires multiset(a) == multiset(b)
    ensures Distinct(a) == Distinct(b)
  {
    DistinctOfOrdered(a, true);
    DistinctOfOrdered(b, true);
    forall x ensures x in Distinct(a) <==> x in Distinct(b) {
      assert x in a <==> x in multiset(a);
      assert x in b <==> x in multiset(b);
    }
    StrictlyOrderedUnique(Distinct(a), Distinct(b), true);
  }

  // ----------------------------------------------------------- category feed

  /** Asks for every entry of the list that is not 0, in list order. */
  method RequestNonZero(list: seq<nat>) returns (requested: seq<nat>)
    ensures requested == NonZero(list)
  {
    requested := [];
    for k := 0 to |list|
      invariant requested == NonZero(list[..k])
    {
      NonZeroAppend(list[..k], list[k]);
      assert list[..k + 1] == list[..k] + [list[k]];
      if list[k] != 0 {
        requested := requested + [list[k]];
      }
    }
    assert list[..|list|] == list;
  }

  /**
   * The category feed: when the category index returned anything, sort it
   * newest first in place, drop repeats and ask for every non-zero ID, with
   * no paging.  Every non-zero ID of the index is asked for exactly once,
   * newest first.
   */
  method CategoryFeedRequests(postsIDs: array<nat>) returns (requested: seq<nat>)
    modifies postsIDs
    ensures postsIDs.Length == 0 ==> requested == []
    ensures postsIDs.Length > 0 ==> requested == NonZero(Distinct(postsIDs[..]))
    ensures StrictlyOrdered(requested, true)
    ensures forall x :: x in requested <==> x != 0 && x in old(postsIDs[..])
  {
    if postsIDs.Length == 0 {
      return [];
    }
    SortInPlace(postsIDs, true);
    var list := Distinct(postsIDs[..]);
    DistinctOfOrdered(postsIDs[..], true);
    requested := RequestNonZero(list);
    NonZeroKeepsOrder(list, true);
    forall x ensures x in postsIDs[..] <==> x in old(postsIDs[..]) {
      assert x in postsIDs[..] <==> x in multiset(postsIDs[..]);
      assert x in old(postsIDs[..]) <==> x in multiset(old(postsIDs[..]));
    }
  }

  // ------------------------------------------------------------- display

  /** What the feeds read of a fetched publication to decide whether to show it. */
  datatype FetchedPublication = FetchedPublication(id: nat, isCommentOfID: nat, isRepostOf: nat)

  /** The explore and category feeds hide comments and reposts; the home feed hides comments only. */
  predicate Shown(p: FetchedPublication, hideReposts: bool) {
    p.isCommentOfID == 0 && (!hideReposts || p.isRepostOf == 0)
  }

  /** The publications a feed adds to its display, in the order they arrive. */
  function Displayed(arrived: seq<FetchedPublication>, hideReposts: bool): (shown: seq<FetchedPublication>)
    ensures forall p :: p in shown <==> p in arrived && Shown(p, hideReposts)
    ensures |shown| <= |arrived|
  {
    if arrived == [] then []
    else
      var rest := Displayed(arrived[..|arrived| - 1], hideReposts);
      var p := arrived[|arrived| - 1];
      assert forall q :: q in arrived <==> q in arrived[..|arrived| - 1] || q == p;
      if Shown(p, hideReposts) then rest + [p] else rest
  }

  /** A ledger publication as the feeds read it; the ledger modelled here has no reposts. */
  function FetchedOf(p: Publication): FetchedPublication {
    FetchedPublication(p.id, p.isCommentOfID, 0)
  }

  /** A feed never shows a comment, and shows every top-level ledger publication it fetched. */
  lemma DisplayedOfLedger(arrived: seq<Publication>, hideReposts: bool)
    ensures var shown := Displayed(seq(|arrived|, i requires 0 <= i < |arrived| => FetchedOf(arrived[i])), hideReposts);
      && (forall p :: p in shown ==> p.isCommentOfID == 0)
      && (forall i :: 0 <= i < |arrived| && arrived[i].isCommentOfID == 0 ==> FetchedOf(arrived[i]) in shown)
  {
    var fetched := seq(|arrived|, i requires 0 <= i < |arrived| => FetchedOf(arrived[i]));
    forall i | 0 <= i < |arrived| && arrived[i].isCommentOfID == 0
      ensures FetchedOf(arrived[i]) in Displayed(fetched, hideReposts)
    {
      assert fetched[i] == FetchedOf(arrived[i]);
    }
  }
}
