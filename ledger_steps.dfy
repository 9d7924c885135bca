/**
 * The ledger's calls as pure steps on its whole state: each call's checks,
 * the state it commits to when the checks pass, and the invariant every
 * step keeps. The class `SocialNetwork` implements these steps in place.
 */
module LedgerSteps {
  import opened LedgerTypes
  import opened Slots
  import opened Votes
  import opened Periods
  import opened TopUsersBoard
  import opened FollowGraph
  import opened RewardToken

  /** The whole observable state of the ledger and of the reward token it owns. */
  datatype LedgerState = LedgerState(
    owner: Address,
    users: map<Address, User>,
    publications: map<nat, Publication>,
    votes: map<(Address, nat), VoteState>,
    monthlyScores: map<(Address, nat), int>,
    rewarded: set<(Address, nat)>,
    nextUnusedPublicationID: nat,
    month: nat,
    board: seq<Address>,
    balances: map<(Address, nat), nat>,
    tokenLog: seq<TokenEvent>,
    log: seq<Event>)

  /** The state right after deployment by `deployer`. */
  function Deployed(deployer: Address): LedgerState {
    LedgerState(deployer, map[], map[], map[], map[], {}, 1, FirstPeriod,
                seq(BoardSize, _ => Zero), map[], [], [])
  }

  // ---------------------------------------------------------------- getters

  function PublicationOf(publications: map<nat, Publication>, id: nat): Publication {
    if id in publications then publications[id] else NoPublication
  }

  function VoteIn(votes: map<(Address, nat), VoteState>, voter: Address, id: nat): VoteState {
    if (voter, id) in votes then votes[(voter, id)] else NoVote
  }

  function MonthlyScoreIn(scores: map<(Address, nat), int>, a: Address, period: nat): int {
    if (a, period) in scores then scores[(a, period)] else 0
  }

  // ----------------------------------------------------------------- checks

  /** The check of `changeName`. */
  function NameCheck(newName: string): Outcome {
    if |newName| > MaxNameLength then Revert("Name must not be longer than 24 characters") else Ok
  }

  /** The checks of `post(content, parentID)`. */
  function PostCheck(content: string, parentID: nat, publications: map<nat, Publication>): Outcome {
    if |content| == 0 then Revert("Publication can't be empty")
    else if |content| > MaxContentLength then Revert("Publications are limited to 300 characters")
    else if parentID != 0 && parentID !in publications then Revert("Parent post doesn't exist")
    else Ok
  }

  /** The check of `upvote` and `downvote`. */
  function VoteCheck(id: nat, publications: map<nat, Publication>): Outcome {
    if id in publications then Ok else Revert("Publication with given ID does not exist")
  }

  /** The checks of `follow(target)`. */
  function FollowCheck(users: map<Address, User>, caller: Address, target: Address): Outcome {
    if target == caller then Revert("You can't follow yourself")
    else if Follows(users, caller, target) then Revert("You already follow this user")
    else if UserOf(users, caller).followingsList.number >= FollowCap then Revert("You can not follow more than 40 users")
    else Ok
  }

  /** The checks of `unfollow(target)`. */
  function UnfollowCheck(users: map<Address, User>, caller: Address, target: Address): Outcome {
    if target == caller then Revert("You can't unfollow yourself")
    else if !Follows(users, caller, target) then Revert("You don't follow this user")
    else Ok
  }

  /** Board users not yet rewarded for the period: those `rewardTopUsers` mints to. */
  function Pending(board: seq<Address>, period: nat, rewarded: set<(Address, nat)>): set<Address> {
    set x | x in board && x != Zero && (x, period) !in rewarded
  }

  /**
   * The checks of `rewardTopUsers`: only the owner; and a mint the token
   * refuses (a period past its range) reverts the whole call.
   */
  function RewardCheck(caller: Address, s: LedgerState): Outcome {
    if caller != s.owner then Revert("OwnableUnauthorizedAccount")
    else if Pending(s.board, s.month, s.rewarded) != {} && !ValidSFTID(s.month) then Revert("Invalid ID")
    else Ok
  }

  // -------------------------------------------------------------- invariant

  /** Every stored publication exists, carries its own ID below the next one, and a comment's parent is older. */
  ghost predicate PublicationsWellFormed(publications: map<nat, Publication>, next: nat) {
    forall id :: id in publications ==>
      && 1 <= id < next
      && publications[id].present
      && publications[id].id == id
      && publications[id].poster != Zero
      && (publications[id].isCommentOfID != 0 ==>
            publications[id].isCommentOfID in publications && publications[id].isCommentOfID < id)
  }

  /** Every ID in a user's posts list names a publication that user posted. */
  ghost predicate HistoriesIndexed(users: map<Address, User>, publications: map<nat, Publication>) {
    forall a, j :: 0 <= j < |UserOf(users, a).postsIDs| ==>
      UserOf(users, a).postsIDs[j] in publications && publications[UserOf(users, a).postsIDs[j]].poster == a
  }

  /** Every ID in a publication's comments list names a comment on that publication. */
  ghost predicate CommentsIndexed(publications: map<nat, Publication>) {
    forall id, j :: id in publications && 0 <= j < |publications[id].commentsIDs| ==>
      publications[id].commentsIDs[j] in publications
      && publications[publications[id].commentsIDs[j]].isCommentOfID == id
  }

  /** Everyone on the board has a positive score. */
  ghost predicate BoardHoldsPositive(board: seq<Address>, users: map<Address, User>) {
    forall i :: 0 <= i < |board| && board[i] != Zero ==> UserOf(users, board[i]).score > 0
  }

  /** What the ledger keeps true at every step: the board part and the records part. */
  ghost predicate Invariant(s: LedgerState) {
    && |s.board| == BoardSize
    && NoDupNonzero(s.board)
    && BoardHoldsPositive(s.board, s.users)
    && RecordsInvariant(s)
  }

  /** The part of the invariant about users, publications, follows, the period and reward marks. */
  ghost predicate RecordsInvariant(s: LedgerState) {
    && s.nextUnusedPublicationID >= 1
    && PublicationsWellFormed(s.publications, s.nextUnusedPublicationID)
    && HistoriesIndexed(s.users, s.publications)
    && CommentsIndexed(s.publications)
    && GraphConsistent(s.users)
    && IsPeriod(s.month)
    && (forall m :: (Zero, m) !in s.rewarded)
  }

  lemma DeployedInvariant(deployer: Address)
    ensures Invariant(Deployed(deployer))
  {
    var s := Deployed(deployer);
    assert forall i :: 0 <= i < |s.board| ==> s.board[i] == Zero;
  }

  // ------------------------------------------------------------------ steps

  /** `changeName(newName)` by caller, once its check passed. */
  function NameStep(s: LedgerState, caller: Address, newName: string): LedgerState {
    var u := UserOf(s.users, caller);
    s.(users := s.users[caller := u.(name := newName)],
       log := s.log + [ChangedName(caller, u.name, newName)])
  }

  /** The publications after a post with ID id: the new record, and the ID appended to its parent's comments. */
  function Published(publications: map<nat, Publication>, id: nat, poster: Address, content: string, parentID: nat)
    : map<nat, Publication>
  {
    var withComment :=
      if parentID != 0 && parentID in publications
      then publications[parentID := publications[parentID].(commentsIDs := publications[parentID].commentsIDs + [id])]
      else publications;
    withComment[id := Publication(true, id, poster, content, parentID, 0, [])]
  }

  /** `post(content, parentID)` by caller, once its checks passed. */
  function PostStep(s: LedgerState, caller: Address, content: string, parentID: nat): LedgerState {
    var id := s.nextUnusedPublicationID;
    var u := UserOf(s.users, caller);
    s.(users := s.users[caller := u.(postsIDs := u.postsIDs + [id])],
       publications := Published(s.publications, id, caller, content, parentID),
       nextUnusedPublicationID := id + 1,
       log := s.log + [NewPost(id, caller)])
  }

  function EventsOf(e: Option<Event>): seq<Event> {
    if e.Some? then [e.value] else []
  }

  /**
   * The bookkeeping of `upvote(id)` (b == CastUp) or `downvote(id)` by
   * caller: the vote record moves by the table, and the same delta is added
   * to the publication's score, its poster's score and the poster's score
   * for the current period.
   */
  function RecordVoteStep(s: LedgerState, caller: Address, id: nat, b: Ballot): LedgerState
    requires id in s.publications
  {
    var prev := VoteIn(s.votes, caller, id);
    var d := Delta(prev, b);
    var pub := s.publications[id];
    var p := pub.poster;
    s.(votes := s.votes[(caller, id) := Next(prev, b)],
       publications := s.publications[id := pub.(score := pub.score + d)],
       users := s.users[p := UserOf(s.users, p).(score := UserOf(s.users, p).score + d)],
       monthlyScores := s.monthlyScores[(p, s.month) := MonthlyScoreIn(s.monthlyScores, p, s.month) + d],
       log := s.log + VoteEvents(prev, b, caller, id))
  }

  /** `setNewTopUsers(p)`: the board update for p's current score, with its event. */
  function TopUsersStep(s: LedgerState, p: Address): LedgerState {
    var change := BoardAfter(s.board, p, UserOf(s.users, p).score);
    s.(board := change.board, log := s.log + EventsOf(change.event))
  }

  /** A whole `upvote(id)` or `downvote(id)`: the bookkeeping, then the poster's board update. */
  function VoteStep(s: LedgerState, caller: Address, id: nat, b: Ballot): LedgerState
    requires id in s.publications
  {
    TopUsersStep(RecordVoteStep(s, caller, id, b), s.publications[id].poster)
  }

  /** `follow(target)` by caller, once its checks passed. */
  function FollowStep(s: LedgerState, caller: Address, target: Address): LedgerState {
    s.(users := AfterFollow(s.users, caller, target), log := s.log + [Followed(caller, target)])
  }

  /** `unfollow(target)` by caller, once its checks passed. */
  function UnfollowStep(s: LedgerState, caller: Address, target: Address): LedgerState
    requires GraphConsistent(s.users) && caller != Zero && caller != target && Follows(s.users, caller, target)
  {
    UnfollowKeepsGraph(s.users, caller, target);
    s.(users := AfterUnfollow(s.users, caller, target), log := s.log + [Unfollowed(caller, target)])
  }

  /**
   * One slot of the reward loop: a board user not yet rewarded for the
   * current period gets one token of it, the period in its token IDs, and
   * the rewarded mark; an empty slot or an already rewarded user changes
   * nothing.
   */
  function RewardSlotStep(s: LedgerState, x: Address): LedgerState {
    if x == Zero || (x, s.month) in s.rewarded then s
    else
      s.(users := s.users[x := UserOf(s.users, x).(sftIDs := UserOf(s.users, x).sftIDs + [s.month])],
         rewarded := s.rewarded + {(x, s.month)},
         balances := s.balances[(x, s.month) := BalanceIn(s.balances, x, s.month) + 1],
         tokenLog := s.tokenLog + [Minted(x, s.month)])
  }

  /** The reward loop run over the given slots, in order. */
  function RewardOver(s: LedgerState, slots: seq<Address>): LedgerState {
    if slots == [] then s
    else RewardSlotStep(RewardOver(s, slots[..|slots| - 1]), slots[|slots| - 1])
  }

  /** `rewardTopUsers()`, once its checks passed: the loop over the board, an empty board, the next period. */
  function RewardStep(s: LedgerState): LedgerState {
    RewardOver(s, s.board).(month := NextMonth(s.month), board := seq(BoardSize, _ => Zero))
  }
}
