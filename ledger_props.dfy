/**
 * What the ledger's steps guarantee: each keeps the invariant, and each does
 * to users, publications, votes, scores, the board and the reward token what
 * the contract's tests describe.
 */
module LedgerProperties {
  import opened LedgerTypes
  import opened Slots
  import opened Votes
  import opened Periods
  import opened TopUsersBoard
  import opened FollowGraph
  import opened RewardToken
  import opened LedgerSteps

  lemma PostCheckSpec(content: string, parentID: nat, publications: map<nat, Publication>)
    ensures PostCheck(content, parentID, publications) == Ok
            <==> 1 <= |content| <= MaxContentLength && (parentID == 0 || parentID in publications)
  {
  }

  /** Two user tables with the same posts lists index the same publications. */
  lemma HistoriesKept(users: map<Address, User>, users': map<Address, User>,
                      pubs: map<nat, Publication>, pubs': map<nat, Publication>)
    requires HistoriesIndexed(users, pubs)
    requires forall a :: UserOf(users', a).postsIDs == UserOf(users, a).postsIDs
    requires forall id :: id in pubs ==> id in pubs' && pubs'[id].poster == pubs[id].poster
    ensures HistoriesIndexed(users', pubs')
  {
    forall a, j | 0 <= j < |UserOf(users', a).postsIDs|
      ensures UserOf(users', a).postsIDs[j] in pubs' && pubs'[UserOf(users', a).postsIDs[j]].poster == a
    {
      assert UserOf(users', a).postsIDs[j] == UserOf(users, a).postsIDs[j];
    }
  }

  lemma NameKeepsInvariant(s: LedgerState, caller: Address, newName: string)
    requires Invariant(s)
    ensures var s' := NameStep(s, caller, newName);
      && Invariant(s')
      && UserOf(s'.users, caller).name == newName
      && (forall a :: a != caller ==> UserOf(s'.users, a) == UserOf(s.users, a))
  {
    var s' := NameStep(s, caller, newName);
    ListsUnchangedKeepGraph(s.users, s'.users);
    HistoriesKept(s.users, s'.users, s.publications, s'.publications);
  }

  /** A post adds exactly the new record and links it under its parent; nothing else stored changes. */
  lemma PublishedShape(pubs: map<nat, Publication>, next: nat, poster: Address, content: string, parentID: nat)
    requires next >= 1 && PublicationsWellFormed(pubs, next)
    requires parentID == 0 || parentID in pubs
    ensures var pubs' := Published(pubs, next, poster, content, parentID);
      && pubs'.Keys == pubs.Keys + {next}
      && next !in pubs
      && pubs'[next] == Publication(true, next, poster, content, parentID, 0, [])
      && (forall id :: id in pubs && id != parentID ==> pubs'[id] == pubs[id])
      && (parentID != 0 ==> pubs'[parentID] == pubs[parentID].(commentsIDs := pubs[parentID].commentsIDs + [next]))
  {
  }

  /** The table after a post is well formed and indexed when the one before was. */
  lemma PublishedSpec(pubs: map<nat, Publication>, next: nat, poster: Address, content: string, parentID: nat)
    requires next >= 1 && PublicationsWellFormed(pubs, next) && CommentsIndexed(pubs)
    requires poster != Zero && (parentID == 0 || parentID in pubs)
    ensures var pubs' := Published(pubs, next, poster, content, parentID);
      && PublicationsWellFormed(pubs', next + 1)
      && CommentsIndexed(pubs')
  {
    var pubs' := Published(pubs, next, poster, content, parentID);
    PublishedShape(pubs, next, poster, content, parentID);
    forall id | id in pubs'
      ensures 1 <= id < next + 1 && pubs'[id].present && pubs'[id].id == id && pubs'[id].poster != Zero
      ensures pubs'[id].isCommentOfID != 0 ==> pubs'[id].isCommentOfID in pubs' && pubs'[id].isCommentOfID < id
    {
      if id != next {
        assert pubs'[id].isCommentOfID == pubs[id].isCommentOfID;
      }
    }
    forall id, j | id in pubs' && 0 <= j < |pubs'[id].commentsIDs|
      ensures pubs'[id].commentsIDs[j] in pubs' && pubs'[pubs'[id].commentsIDs[j]].isCommentOfID == id
    {
      if id != next {
        if id == parentID && j == |pubs[id].commentsIDs| {
          assert pubs'[id].commentsIDs[j] == next;
        } else {
          assert pubs'[id].commentsIDs[j] == pubs[id].commentsIDs[j];
          assert pubs'[pubs[id].commentsIDs[j]].isCommentOfID == pubs[pubs[id].commentsIDs[j]].isCommentOfID;
        }
      }
    }
  }

  /** Appending a new publication of the caller's to the caller's history keeps histories indexed. */
  lemma HistoriesAfterPost(users: map<Address, User>, pubs: map<nat, Publication>, pubs': map<nat, Publication>,
                           caller: Address, id: nat)
    requires HistoriesIndexed(users, pubs)
    requires id in pubs' && pubs'[id].poster == caller
    requires forall k :: k in pubs ==> k in pubs' && pubs'[k].poster == pubs[k].poster
    ensures HistoriesIndexed(users[caller := UserOf(users, caller).(postsIDs := UserOf(users, caller).postsIDs + [id])], pubs')
  {
    var users' := users[caller := UserOf(users, caller).(postsIDs := UserOf(users, caller).postsIDs + [id])];
    forall a, j | 0 <= j < |UserOf(users', a).postsIDs|
      ensures UserOf(users', a).postsIDs[j] in pubs' && pubs'[UserOf(users', a).postsIDs[j]].poster == a
    {
      if a != caller || j < |UserOf(users, a).postsIDs| {
        assert UserOf(users', a).postsIDs[j] == UserOf(users, a).postsIDs[j];
      }
    }
  }

  lemma PostKeepsInvariant(s: LedgerState, caller: Address, content: string, parentID: nat)
    requires Invariant(s) && caller != Zero && PostCheck(content, parentID, s.publications) == Ok
    ensures Invariant(PostStep(s, caller, content, parentID))
  {
    var s' := PostStep(s, caller, content, parentID);
    var id := s.nextUnusedPublicationID;
    PublishedShape(s.publications, id, caller, content, parentID);
    PublishedSpec(s.publications, id, caller, content, parentID);
    ListsUnchangedKeepGraph(s.users, s'.users);
    HistoriesAfterPost(s.users, s.publications, s'.publications, caller, id);
  }

  /**
   * A post followed by `getPublication` returns what was posted, with score 0
   * and no comments, under the next unused ID; the ID is appended to the
   * poster's history and to the parent's comments.
   */
  lemma PostRoundTrip(s: LedgerState, caller: Address, content: string, parentID: nat)
    requires Invariant(s) && caller != Zero && PostCheck(content, parentID, s.publications) == Ok
    ensures var s' := PostStep(s, caller, content, parentID);
      var id := s.nextUnusedPublicationID;
      && PublicationOf(s.publications, id) == NoPublication
      && PublicationOf(s'.publications, id) == Publication(true, id, caller, content, parentID, 0, [])
      && s'.nextUnusedPublicationID == id + 1
      && UserOf(s'.users, caller).postsIDs == UserOf(s.users, caller).postsIDs + [id]
      && (parentID != 0 ==>
            PublicationOf(s'.publications, parentID).commentsIDs
            == PublicationOf(s.publications, parentID).commentsIDs + [id])
      && (forall k :: k != id && k != parentID ==> PublicationOf(s'.publications, k) == PublicationOf(s.publications, k))
      && s'.log == s.log + [NewPost(id, caller)]
  {
    PublishedShape(s.publications, s.nextUnusedPublicationID, caller, content, parentID);
  }

  /** Changing one publication's score keeps the publication table well formed and indexed. */
  lemma RescoreKeepsPublications(pubs: map<nat, Publication>, next: nat, id: nat, score: int)
    requires PublicationsWellFormed(pubs, next) && CommentsIndexed(pubs) && id in pubs
    ensures var pubs' := pubs[id := pubs[id].(score := score)];
      && PublicationsWellFormed(pubs', next)
      && CommentsIndexed(pubs')
      && (forall k :: k in pubs ==> k in pubs' && pubs'[k].poster == pubs[k].poster)
  {
    var pubs' := pubs[id := pubs[id].(score := score)];
    forall k, j | k in pubs' && 0 <= j < |pubs'[k].commentsIDs|
      ensures pubs'[k].commentsIDs[j] in pubs' && pubs'[pubs'[k].commentsIDs[j]].isCommentOfID == k
    {
      assert pubs'[k].commentsIDs[j] == pubs[k].commentsIDs[j];
    }
  }

  /** Board holders other than p have positive scores. */
  ghost predicate BoardPositiveExcept(board: seq<Address>, users: map<Address, User>, p: Address) {
    forall i :: 0 <= i < |board| && board[i] != Zero && board[i] != p ==> UserOf(users, board[i]).score > 0
  }

  /** The vote bookkeeping keeps the records part, and the board positive except perhaps for the poster. */
  lemma RecordVoteKeepsRecords(s: LedgerState, caller: Address, id: nat, b: Ballot)
    requires Invariant(s) && id in s.publications
    ensures var s1 := RecordVoteStep(s, caller, id, b);
      && RecordsInvariant(s1)
      && s1.board == s.board
      && BoardPositiveExcept(s1.board, s1.users, s.publications[id].poster)
  {
    var s1 := RecordVoteStep(s, caller, id, b);
    RescoreKeepsPublications(s.publications, s.nextUnusedPublicationID, id, s1.publications[id].score);
    ListsUnchangedKeepGraph(s.users, s1.users);
    HistoriesKept(s.users, s1.users, s.publications, s1.publications);
  }

  /** The board update for p brings back the whole invariant. */
  lemma TopUsersStepRestores(s: LedgerState, p: Address)
    requires |s.board| == BoardSize && NoDupNonzero(s.board) && RecordsInvariant(s) && p != Zero
    requires BoardPositiveExcept(s.board, s.users, p)
    ensures Invariant(TopUsersStep(s, p))
  {
    var score := UserOf(s.users, p).score;
    var board' := BoardAfter(s.board, p, score).board;
    BoardAfterSpec(s.board, p, score);
    forall i | 0 <= i < |board'| && board'[i] != Zero ensures UserOf(s.users, board'[i]).score > 0 {
      if board'[i] == p {
        assert p in board';
      } else {
        assert board'[i] == s.board[i];
      }
    }
  }

  lemma VoteKeepsInvariant(s: LedgerState, caller: Address, id: nat, b: Ballot)
    requires Invariant(s) && id in s.publications
    ensures Invariant(VoteStep(s, caller, id, b))
  {
    RecordVoteKeepsRecords(s, caller, id, b);
    TopUsersStepRestores(RecordVoteStep(s, caller, id, b), s.publications[id].poster);
  }

  /**
   * A vote moves the voter's record by the table and changes the
   * publication's score, its poster's score and the poster's score for the
   * current period by the same amount: the change in the voter's tally. No
   * other user's score changes.
   */
  lemma VoteStepSpec(s: LedgerState, caller: Address, id: nat, b: Ballot)
    requires id in s.publications
    ensures var s' := VoteStep(s, caller, id, b);
      var prev := VoteIn(s.votes, caller, id);
      var p := s.publications[id].poster;
      var d := Tally(Next(prev, b)) - Tally(prev);
      && VoteIn(s'.votes, caller, id) == Next(prev, b)
      && s'.publications[id].score == s.publications[id].score + d
      && UserOf(s'.users, p).score == UserOf(s.users, p).score + d
      && MonthlyScoreIn(s'.monthlyScores, p, s.month) == MonthlyScoreIn(s.monthlyScores, p, s.month) + d
      && (forall a :: a != p ==> UserOf(s'.users, a) == UserOf(s.users, a))
      && (forall v: Address, k: nat :: (v, k) != (caller, id) ==> VoteIn(s'.votes, v, k) == VoteIn(s.votes, v, k))
      && (forall a: Address, m: nat :: (a, m) != (p, s.month) ==>
            MonthlyScoreIn(s'.monthlyScores, a, m) == MonthlyScoreIn(s.monthlyScores, a, m))
      && (forall k :: k != id ==> PublicationOf(s'.publications, k) == PublicationOf(s.publications, k))
      && var change := BoardAfter(s.board, p, UserOf(s'.users, p).score);
         && s'.board == change.board
         && s'.log == s.log + VoteEvents(prev, b, caller, id) + EventsOf(change.event)
  {
    DeltaIsTallyChange(VoteIn(s.votes, caller, id), b);
  }

  /**
   * Casting the same ballot twice on a publication restores the vote record,
   * the publication, every user and every monthly score exactly when the
   * first ballot does not switch an opposite vote; a switch followed by the
   * same ballot withdraws the vote instead.
   */
  lemma VoteRepeatRestores(s: LedgerState, caller: Address, id: nat, b: Ballot)
    requires id in s.publications
    ensures var s2 := VoteStep(VoteStep(s, caller, id, b), caller, id, b);
      var prev := VoteIn(s.votes, caller, id);
      && (VoteIn(s2.votes, caller, id) == prev <==> prev != (if b == CastUp then Down else Up))
      && (prev != (if b == CastUp then Down else Up) ==>
            && s2.publications == s.publications
            && (forall a :: UserOf(s2.users, a) == UserOf(s.users, a))
            && (forall a: Address, m: nat :: MonthlyScoreIn(s2.monthlyScores, a, m) == MonthlyScoreIn(s.monthlyScores, a, m))
            && (forall v: Address, k: nat :: VoteIn(s2.votes, v, k) == VoteIn(s.votes, v, k)))
  {
    var s1 := VoteStep(s, caller, id, b);
    var prev := VoteIn(s.votes, caller, id);
    VoteStepSpec(s, caller, id, b);
    VoteStepSpec(s1, caller, id, b);
    RepeatRestores(prev, b);
    DeltaIsTallyChange(prev, b);
    DeltaIsTallyChange(Next(prev, b), b);
    var s2 := VoteStep(s1, caller, id, b);
    if prev != (if b == CastUp then Down else Up) {
      assert s2.publications[id] == s.publications[id];
    }
  }

  /** A user table that differs only in follow lists, and keeps the graph consistent, keeps the invariant. */
  lemma ListsEditKeepsInvariant(s: LedgerState, users': map<Address, User>)
    requires Invariant(s) && GraphConsistent(users') && OnlyListsChanged(s.users, users')
    ensures Invariant(s.(users := users'))
  {
    HistoriesKept(s.users, users', s.publications, s.publications);
  }

  lemma FollowKeepsInvariant(s: LedgerState, caller: Address, target: Address)
    requires Invariant(s) && caller != Zero && target != Zero && FollowCheck(s.users, caller, target) == Ok
    ensures Invariant(FollowStep(s, caller, target))
  {
    var users' := AfterFollow(s.users, caller, target);
    AfterFollowShape(s.users, caller, target);
    FollowEditKeepsGraph(s.users, users', caller, target);
    ListsEditKeepsInvariant(s, users');
  }

  /** After `follow`, caller follows target; no other pair changes; both counts go up by one. */
  lemma FollowStepSpec(s: LedgerState, caller: Address, target: Address)
    requires Invariant(s) && caller != Zero && target != Zero && FollowCheck(s.users, caller, target) == Ok
    ensures var s' := FollowStep(s, caller, target);
      && Follows(s'.users, caller, target)
      && (forall x: Address, y: Address :: (x, y) != (caller, target) ==> (Follows(s'.users, x, y) <==> Follows(s.users, x, y)))
      && UserOf(s'.users, caller).followingsList.number == UserOf(s.users, caller).followingsList.number + 1
      && UserOf(s'.users, target).followersList.number == UserOf(s.users, target).followersList.number + 1
  {
    FollowKeepsGraph(s.users, caller, target);
  }

  lemma UnfollowKeepsInvariant(s: LedgerState, caller: Address, target: Address)
    requires Invariant(s) && caller != Zero && target != Zero && UnfollowCheck(s.users, caller, target) == Ok
    ensures Invariant(UnfollowStep(s, caller, target))
  {
    assert FollowedBy(s.users, target, caller);
    RemovedSpec(UserOf(s.users, caller).followingsList, target);
    RemovedSpec(UserOf(s.users, target).followersList, caller);
    var users' := AfterUnfollow(s.users, caller, target);
    AfterUnfollowShape(s.users, caller, target);
    UnfollowEditKeepsGraph(s.users, users', caller, target);
    ListsEditKeepsInvariant(s, users');
  }

  /** After `unfollow`, caller no longer follows target; no other pair changes; both counts go down by one. */
  lemma UnfollowStepSpec(s: LedgerState, caller: Address, target: Address)
    requires Invariant(s) && caller != Zero && target != Zero && UnfollowCheck(s.users, caller, target) == Ok
    ensures var s' := UnfollowStep(s, caller, target);
      && !Follows(s'.users, caller, target)
      && (forall x: Address, y: Address :: (x, y) != (caller, target) ==> (Follows(s'.users, x, y) <==> Follows(s.users, x, y)))
      && UserOf(s'.users, caller).followingsList.number + 1 == UserOf(s.users, caller).followingsList.number
      && UserOf(s'.users, target).followersList.number + 1 == UserOf(s.users, target).followersList.number
  {
    UnfollowKeepsGraph(s.users, caller, target);
  }

  /** The pending users of a non-empty list of slots: those of all but the last slot, and the last one if it is new. */
  lemma PendingLast(slots: seq<Address>, m: nat, rewarded: set<(Address, nat)>)
    requires NoDupNonzero(slots) && slots != []
    ensures var p, x := slots[..|slots| - 1], slots[|slots| - 1];
      && NoDupNonzero(p)
      && (x != Zero ==> x !in p && x !in Pending(p, m, rewarded))
      && Pending(slots, m, rewarded) == Pending(p, m, rewarded) + (if x != Zero && (x, m) !in rewarded then {x} else {})
  {
    var p, x := slots[..|slots| - 1], slots[|slots| - 1];
    assert slots == p + [x];
    forall k | 0 <= k < |p| && x != Zero ensures p[k] != x {
      assert slots[k] == p[k];
    }
  }

  /** The reward loop keeps the period, the board, and every field but users, marks, balances and token log. */
  lemma {:induction false} RewardOverFrame(s: LedgerState, slots: seq<Address>)
    ensures var r := RewardOver(s, slots);
      r == s.(users := r.users, rewarded := r.rewarded, balances := r.balances, tokenLog := r.tokenLog)
  {
    if slots != [] {
      RewardOverFrame(s, slots[..|slots| - 1]);
    }
  }

  /** The reward loop marks exactly the users of the slots as rewarded for the period. */
  lemma {:induction false} RewardOverMarks(s: LedgerState, slots: seq<Address>)
    ensures var r := RewardOver(s, slots);
      forall a, n :: (a, n) in r.rewarded <==> (a, n) in s.rewarded || (n == s.month && a in slots && a != Zero)
  {
    if slots != [] {
      var p := slots[..|slots| - 1];
      assert slots == p + [slots[|slots| - 1]];
      RewardOverMarks(s, p);
      RewardOverFrame(s, p);
    }
  }

  /** One token of the period for each user of the slots not rewarded before, when no identity holds two slots. */
  lemma {:induction false} RewardOverBalances(s: LedgerState, slots: seq<Address>)
    requires NoDupNonzero(slots)
    ensures var r := RewardOver(s, slots);
      forall h, i :: BalanceIn(r.balances, h, i)
                   == BalanceIn(s.balances, h, i) + (if i == s.month && h in Pending(slots, s.month, s.rewarded) then 1 else 0)
  {
    if slots != [] {
      var p, x := slots[..|slots| - 1], slots[|slots| - 1];
      PendingLast(slots, s.month, s.rewarded);
      RewardOverBalances(s, p);
      RewardOverMarks(s, p);
      RewardOverFrame(s, p);
    }
  }

  /** The period appended to the token IDs of each user of the slots not rewarded before; records otherwise unchanged. */
  lemma {:induction false} RewardOverUsers(s: LedgerState, slots: seq<Address>)
    requires NoDupNonzero(slots)
    ensures var r := RewardOver(s, slots);
      forall a :: UserOf(r.users, a)
                  == if a in Pending(slots, s.month, s.rewarded)
                     then UserOf(s.users, a).(sftIDs := UserOf(s.users, a).sftIDs + [s.month])
                     else UserOf(s.users, a)
  {
    if slots != [] {
      var p, x := slots[..|slots| - 1], slots[|slots| - 1];
      PendingLast(slots, s.month, s.rewarded);
      RewardOverUsers(s, p);
      RewardOverMarks(s, p);
      RewardOverFrame(s, p);
    }
  }

  /** One `Minted` event of the period per user of the slots not rewarded before, appended to the token's log. */
  lemma {:induction false} RewardOverLog(s: LedgerState, slots: seq<Address>)
    requires NoDupNonzero(slots)
    ensures var r := RewardOver(s, slots);
      var pending := Pending(slots, s.month, s.rewarded);
      && |r.tokenLog| == |s.tokenLog| + |pending|
      && r.tokenLog[..|s.tokenLog|] == s.tokenLog
      && (forall j :: |s.tokenLog| <= j < |r.tokenLog| ==> r.tokenLog[j].id == s.month && r.tokenLog[j].holder in pending)
  {
    if slots == [] {
      assert Pending(slots, s.month, s.rewarded) == {};
    } else {
      var p, x := slots[..|slots| - 1], slots[|slots| - 1];
      PendingLast(slots, s.month, s.rewarded);
      RewardOverLog(s, p);
      RewardOverMarks(s, p);
      RewardOverFrame(s, p);
    }
  }

  lemma RewardKeepsInvariant(s: LedgerState)
    requires Invariant(s)
    ensures Invariant(RewardStep(s))
  {
    var s' := RewardStep(s);
    RewardOverFrame(s, s.board);
    RewardOverMarks(s, s.board);
    RewardOverBalances(s, s.board);
    RewardOverUsers(s, s.board);
    forall a ensures UserOf(s'.users, a).(sftIDs := UserOf(s.users, a).sftIDs) == UserOf(s.users, a) {
    }
    ListsUnchangedKeepGraph(s.users, s'.users);
    HistoriesKept(s.users, s'.users, s.publications, s'.publications);
    NextMonthIsSuccessor(s.month);
    assert forall i :: 0 <= i < |s'.board| ==> s'.board[i] == Zero;
  }

  /**
   * `rewardTopUsers` marks every board user as rewarded for the period,
   * mints one token of the period to, and appends the period to the token
   * IDs of, exactly those board users not rewarded before, empties the board
   * and moves to the next calendar month.
   */
  lemma RewardStepSpec(s: LedgerState)
    requires Invariant(s)
    ensures var s' := RewardStep(s);
      var m := s.month;
      && (forall a, n :: (a, n) in s'.rewarded <==> (a, n) in s.rewarded || (n == m && a in s.board && a != Zero))
      && (forall h, i :: BalanceIn(s'.balances, h, i)
                       == BalanceIn(s.balances, h, i)
                          + (if i == m && h in s.board && h != Zero && (h, m) !in s.rewarded then 1 else 0))
      && (forall a :: UserOf(s'.users, a).sftIDs
                    == UserOf(s.users, a).sftIDs + (if a in s.board && a != Zero && (a, m) !in s.rewarded then [m] else []))
      && (forall i :: 0 <= i < |s'.board| ==> s'.board[i] == Zero)
      && IsPeriod(s'.month) && Ordinal(s'.month) == Ordinal(m) + 1
  {
    RewardOverFrame(s, s.board);
    RewardOverMarks(s, s.board);
    RewardOverBalances(s, s.board);
    RewardOverUsers(s, s.board);
    NextMonthIsSuccessor(s.month);
  }
}
