/**
 * Shared vocabulary of the Block News ledger: identities, the records the
 * contract stores, the outcome of a call and the events it logs.
 */
module LedgerTypes {

  /** An account identity (a 160-bit address); 0 is the sentinel "nobody". */
  type Address = nat

  const Zero: Address := 0

  const MaxNameLength: nat := 24
  const MaxContentLength: nat := 300
  const BoardSize: nat := 10
  const FollowCap: nat := 40
  /** The period the ledger starts in, December 2023 as YYYYMM. */
  const FirstPeriod: nat := 202312

  datatype Option<T> = None | Some(value: T)

  /** A call either commits (Ok) or reverts with the contract's message. */
  datatype Outcome = Ok | Revert(reason: string)

  /** A follow list: the slots ever used (unfollowed slots hold Zero) and the live count. */
  datatype FollowList = FollowList(followList: seq<Address>, number: nat)

  datatype User = User(
    name: string,
    score: int,
    followingsList: FollowList,
    followersList: FollowList,
    postsIDs: seq<nat>,
    sftIDs: seq<nat>)

  /** The record every identity has before anything was written for it. */
  const EmptyUser: User := User("", 0, FollowList([], 0), FollowList([], 0), [], [])

  /** `present` is the contract's `exists` flag (a reserved word in Dafny). */
  datatype Publication = Publication(
    present: bool,
    id: nat,
    poster: Address,
    content: string,
    isCommentOfID: nat,
    score: int,
    commentsIDs: seq<nat>)

  const NoPublication: Publication := Publication(false, 0, Zero, "", 0, 0, [])

  datatype Event =
    | ChangedName(user: Address, previousName: string, newName: string)
    | NewPost(publicationID: nat, poster: Address)
    | Upvoted(voter: Address, publicationID: nat)
    | Downvoted(voter: Address, publicationID: nat)
    | RemovedUpvote(voter: Address, publicationID: nat)
    | RemovedDownvote(voter: Address, publicationID: nat)
    | NewTopUser(newTopUser: Address, previousTopUser: Address)
    | Followed(follower: Address, followed: Address)
    | Unfollowed(follower: Address, followed: Address)
}
