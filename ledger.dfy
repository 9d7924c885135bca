/**
 * `SocialNetwork`: the on-chain ledger of Block News, updated in place. Each
 * call checks its inputs, and on success commits exactly the step of
 * `LedgerSteps`; on a revert nothing changes.
 */
module SocialLedger {
  import opened LedgerTypes
  import opened Slots
  import opened Votes
  import opened Periods
  import opened TopUsersBoard
  import opened FollowGraph
  import opened RewardToken
  import opened LedgerSteps
  import opened LedgerProperties

  class SocialNetwork {
    /** The ledger's own address: the owner of the reward token. */
    const contractAddress: Address
    var owner: Address
    var users: map<Address, User>
    var publications: map<nat, Publication>
    var votes: map<(Address, nat), VoteState>
    var monthlyScores: map<(Address, nat), int>
    var rewarded: set<(Address, nat)>
    var nextUnusedPublicationID: nat
    var month: nat
    const topUsers: array<Address>
    const sft: TopUsersSFT
    var log: seq<Event>

    function State(): LedgerState
      reads this, topUsers, sft
    {
      LedgerState(owner, users, publications, votes, monthlyScores, rewarded, nextUnusedPublicationID,
                  month, topUsers[..], sft.balances, sft.log, log)
    }

    ghost predicate Valid()
      reads this, topUsers, sft
    {
      && topUsers.Length == BoardSize
      && sft.owner == contractAddress
      && Invariant(State())
    }

    constructor (deployer: Address, self: Address)
      ensures Valid() && fresh(topUsers) && fresh(sft)
      ensures contractAddress == self
      ensures State() == Deployed(deployer)
    {
      contractAddress := self;
      owner := deployer;
      users := map[];
      publications := map[];
      votes := map[];
      monthlyScores := map[];
      rewarded := {};
      nextUnusedPublicationID := 1;
      month := FirstPeriod;
      topUsers := new Address[BoardSize](_ => Zero);
      sft := new TopUsersSFT(self);
      log := [];
      new;
      DeployedInvariant(deployer);
    }

    /** `getUser(a)`. */
    function GetUser(a: Address): User
      reads this
    {
      UserOf(users, a)
    }

    /** `getPublication(id)`: a record with `present` false for an unused ID. */
    function GetPublication(id: nat): Publication
      reads this
    {
      PublicationOf(publications, id)
    }

    /** `upvoteOrDownvote(voter, id)`: 0 none, 1 downvoted, 2 upvoted. */
    function UpvoteOrDownvote(voter: Address, id: nat): nat
      reads this
    {
      Code(VoteIn(votes, voter, id))
    }

    /** `getMonthlyProfileScore(a, period)`. */
    function GetMonthlyProfileScore(a: Address, period: nat): int
      reads this
    {
      MonthlyScoreIn(monthlyScores, a, period)
    }

    /** `hasBeenRewarded(a, period)`. */
    predicate HasBeenRewarded(a: Address, period: nat)
      reads this
    {
      (a, period) in rewarded
    }

    /** `doesFollow(a, b)`. */
    predicate DoesFollow(a: Address, b: Address)
      reads this
    {
      Follows(users, a, b)
    }

    /** `getTopUsers()`. */
    function GetTopUsers(): seq<Address>
      reads this, topUsers
    {
      topUsers[..]
    }

    /** `changeName(newName)` called by `caller`. */
    method ChangeName(caller: Address, newName: string) returns (r: Outcome)
      requires Valid() && caller != Zero
      modifies this
      ensures Valid()
      ensures r == NameCheck(newName)
      ensures r.Revert? ==> State() == old(State())
      ensures r.Ok? ==> State() == NameStep(old(State()), caller, newName)
    {
      r := NameCheck(newName);
      if r.Ok? {
        ghost var s' := NameStep(State(), caller, newName);
        NameKeepsInvariant(State(), caller, newName);
        var u := GetUser(caller);
        users := users[caller := u.(name := newName)];
        log := log + [ChangedName(caller, u.name, newName)];
        assert State() == s';
      }
    }

    /** `post(content, parentID)` called by `caller`; parentID 0 makes a top-level post. */
    method Post(caller: Address, content: string, parentID: nat) returns (r: Outcome)
      requires Valid() && caller != Zero
      modifies this
      ensures Valid()
      ensures r == PostCheck(content, parentID, old(publications))
      ensures r.Revert? ==> State() == old(State())
      ensures r.Ok? ==> State() == PostStep(old(State()), caller, content, parentID)
    {
      r := PostCheck(content, parentID, publications);
      if r.Revert? {
        return;
      }
      ghost var s' := PostStep(State(), caller, content, parentID);
      PostKeepsInvariant(State(), caller, content, parentID);
      var id := nextUnusedPublicationID;
      if parentID != 0 {
        var parent := publications[parentID];
        publications := publications[parentID := parent.(commentsIDs := parent.commentsIDs + [id])];
      }
      publications := publications[id := Publication(true, id, caller, content, parentID, 0, [])];
      var u := GetUser(caller);
      users := users[caller := u.(postsIDs := u.postsIDs + [id])];
      nextUnusedPublicationID := id + 1;
      log := log + [NewPost(id, caller)];
      assert State() == s';
    }

    /** `upvote(id)` called by `caller`. */
    method Upvote(caller: Address, id: nat) returns (r: Outcome)
      requires Valid() && caller != Zero
      modifies this, topUsers
      ensures Valid()
      ensures r == VoteCheck(id, old(publications))
      ensures r.Revert? ==> State() == old(State())
      ensures r.Ok? ==> id in old(publications) && State() == VoteStep(old(State()), caller, id, CastUp)
    {
      r := Vote(caller, id, CastUp);
    }

    /** `downvote(id)` called by `caller`. */
    method Downvote(caller: Address, id: nat) returns (r: Outcome)
      requires Valid() && caller != Zero
      modifies this, topUsers
      ensures Valid()
      ensures r == VoteCheck(id, old(publications))
      ensures r.Revert? ==> State() == old(State())
      ensures r.Ok? ==> id in old(publications) && State() == VoteStep(old(State()), caller, id, CastDown)
    {
      r := Vote(caller, id, CastDown);
    }

    /** The body shared by `upvote` and `downvote`. */
    method Vote(caller: Address, id: nat, b: Ballot) returns (r: Outcome)
      requires Valid() && caller != Zero
      modifies this, topUsers
      ensures Valid()
      ensures r == VoteCheck(id, old(publications))
      ensures r.Revert? ==> State() == old(State())
      ensures r.Ok? ==> id in old(publications) && State() == VoteStep(old(State()), caller, id, b)
    {
      r := VoteCheck(id, publications);
      if r.Revert? {
        return;
      }
      VoteKeepsInvariant(State(), caller, id, b);
      var p := RecordVote(caller, id, b);
      SetNewTopUsers(p);
    }

    /** The vote bookkeeping of `upvote` and `downvote`, before the board update; p is the poster. */
    method RecordVote(caller: Address, id: nat, b: Ballot) returns (p: Address)
      requires id in publications
      modifies this`votes, this`publications, this`users, this`monthlyScores, this`log
      ensures p == old(publications[id].poster)
      ensures State() == RecordVoteStep(old(State()), caller, id, b)
    {
      var prev := VoteIn(votes, caller, id);
      var d := Delta(prev, b);
      var pub := publications[id];
      p := pub.poster;
      var u := GetUser(p);
      votes := votes[(caller, id) := Next(prev, b)];
      publications := publications[id := pub.(score := pub.score + d)];
      users := users[p := u.(score := u.score + d)];
      monthlyScores := monthlyScores[(p, month) := GetMonthlyProfileScore(p, month) + d];
      log := log + VoteEvents(prev, b, caller, id);
    }

    /** `setNewTopUsers(poster)`: the board update for the poster whose score just changed. */
    method SetNewTopUsers(poster: Address)
      requires topUsers.Length == BoardSize
      modifies this`log, topUsers
      ensures State() == TopUsersStep(old(State()), poster)
    {
      var score := GetUser(poster).score;
      var k := FindSlot(topUsers, poster);
      if score > 0 {
        if k == topUsers.Length {
          var e := FindSlot(topUsers, Zero);
          if e < topUsers.Length {
            topUsers[e] := poster;
            log := log + [NewTopUser(poster, Zero)];
          }
        }
      } else if k < topUsers.Length {
        topUsers[k] := Zero;
        log := log + [NewTopUser(Zero, poster)];
      }
    }

    /** `follow(target)` called by `caller`. */
    method Follow(caller: Address, target: Address) returns (r: Outcome)
      requires Valid() && caller != Zero && target != Zero
      modifies this
      ensures Valid()
      ensures r == FollowCheck(old(users), caller, target)
      ensures r.Revert? ==> State() == old(State())
      ensures r.Ok? ==> State() == FollowStep(old(State()), caller, target)
    {
      r := FollowCheck(users, caller, target);
      if r.Revert? {
        return;
      }
      ghost var s' := FollowStep(State(), caller, target);
      FollowKeepsInvariant(State(), caller, target);
      users := AfterFollow(users, caller, target);
      log := log + [Followed(caller, target)];
      assert State() == s';
    }

    /** `unfollow(target)` called by `caller`. */
    method Unfollow(caller: Address, target: Address) returns (r: Outcome)
      requires Valid() && caller != Zero && target != Zero
      modifies this
      ensures Valid()
      ensures r == UnfollowCheck(old(users), caller, target)
      ensures r.Revert? ==> State() == old(State())
      ensures r.Ok? ==> State() == UnfollowStep(old(State()), caller, target)
    {
      r := UnfollowCheck(users, caller, target);
      if r.Revert? {
        return;
      }
      ghost var s' := UnfollowStep(State(), caller, target);
      UnfollowKeepsInvariant(State(), caller, target);
      users := AfterUnfollow(users, caller, target);
      log := log + [Unfollowed(caller, target)];
      assert State() == s';
    }

    /**
     * `rewardTopUsers()` called by `caller`: walks the ten slots, mints one
     * token of the current period to each board user not yet rewarded for
     * it, marks them, empties every slot, then advances the period.
     */
    method RewardTopUsers(caller: Address) returns (r: Outcome)
      requires Valid()
      modifies this, topUsers, sft
      ensures Valid()
      ensures r == RewardCheck(caller, old(State()))
      ensures r.Revert? ==> State() == old(State())
      ensures r.Ok? ==> State() == RewardStep(old(State()))
    {
      r := RewardCheck(caller, State());
      if r.Revert? {
        return;
      }
      ghost var s0 := State();
      RewardKeepsInvariant(s0);
      RewardOverFrame(s0, s0.board);
      RewardBoard();
      month := NextMonth(month);
      assert State() == RewardStep(s0);
    }

    /**
     * The loop of `rewardTopUsers` over the ten slots: mint to and record
     * each board user not yet rewarded for the period, mark it rewarded, and
     * empty the slot.
     */
    method RewardBoard()
      requires topUsers.Length == BoardSize && sft.owner == contractAddress
      requires Pending(topUsers[..], month, rewarded) != {} ==> ValidSFTID(month)
      modifies this`users, this`rewarded, topUsers, sft
      ensures var r := RewardOver(old(State()), old(topUsers[..]));
        users == r.users && rewarded == r.rewarded && sft.balances == r.balances && sft.log == r.tokenLog
      ensures topUsers[..] == seq(BoardSize, _ => Zero)
      ensures sft.owner == old(sft.owner)
    {
      ghost var s0, board := State(), topUsers[..];
      var i := 0;
      while i < BoardSize
        invariant 0 <= i <= BoardSize
        invariant forall j :: 0 <= j < i ==> topUsers[j] == Zero
        invariant forall j :: i <= j < BoardSize ==> topUsers[j] == board[j]
        invariant var t := RewardOver(s0, board[..i]);
          users == t.users && rewarded == t.rewarded && sft.balances == t.balances && sft.log == t.tokenLog
          && t.month == month
        invariant s0.rewarded <= rewarded
        invariant sft.owner == contractAddress
      {
        RewardSlot(i, s0, board);
        i := i + 1;
      }
      assert board[..BoardSize] == board;
      assert topUsers[..] == seq(BoardSize, _ => Zero);
    }

    /** One pass of the reward loop: slot i, with the slots before it done. */
    method RewardSlot(i: nat, ghost s0: LedgerState, ghost board: seq<Address>)
      requires i < BoardSize == topUsers.Length == |board| && sft.owner == contractAddress
      requires Pending(board, month, s0.rewarded) != {} ==> ValidSFTID(month)
      requires topUsers[i] == board[i]
      requires var t := RewardOver(s0, board[..i]);
        users == t.users && rewarded == t.rewarded && sft.balances == t.balances && sft.log == t.tokenLog
        && t.month == month
      requires s0.rewarded <= rewarded
      modifies this`users, this`rewarded, topUsers, sft
      ensures topUsers[..] == old(topUsers[..])[i := Zero]
      ensures var t := RewardOver(s0, board[..i + 1]);
        users == t.users && rewarded == t.rewarded && sft.balances == t.balances && sft.log == t.tokenLog
        && t.month == month
      ensures s0.rewarded <= rewarded
      ensures sft.owner == contractAddress
    {
      assert board[..i + 1][..i] == board[..i];
      var u := topUsers[i];
      if u != Zero && (u, month) !in rewarded {
        assert u in Pending(board, month, s0.rewarded);
        var minted := sft.MintOne(contractAddress, u, month);
        assert minted == Ok;
        var uu := GetUser(u);
        users := users[u := uu.(sftIDs := uu.sftIDs + [month])];
        rewarded := rewarded + {(u, month)};
      }
      topUsers[i] := Zero;
    }
  }
}
