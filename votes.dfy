/**
 * The vote state machine of `upvote` / `downvote`: what a voter's record
 * becomes, by how much the three scores move, and which events are logged.
 */
module Votes {
  import opened LedgerTypes

  /** A voter's record on one publication. */
  datatype VoteState = NoVote | Down | Up

  /** The ballot a call casts. */
  datatype Ballot = CastUp | CastDown

  /** The number `upvoteOrDownvote` reports: 0 none, 1 downvoted, 2 upvoted. */
  function Code(v: VoteState): (c: nat)
    ensures c <= 2
    ensures c == 0 <==> v == NoVote
    ensures c == 1 <==> v == Down
    ensures c == 2 <==> v == Up
  {
    match v
    case NoVote => 0
    case Down => 1
    case Up => 2
  }

  /** What one voter's record contributes to a score. */
  function Tally(v: VoteState): int {
    match v
    case NoVote => 0
    case Down => -1
    case Up => 1
  }

  /** The record after the ballot: the same ballot again withdraws the vote. */
  function Next(prev: VoteState, b: Ballot): VoteState {
    match b
    case CastUp => if prev == Up then NoVote else Up
    case CastDown => if prev == Down then NoVote else Down
  }

  /** The score change of the transition table (+1, -1, +2, -2). */
  function Delta(prev: VoteState, b: Ballot): int {
    match b
    case CastUp => if prev == Up then -1 else if prev == Down then 2 else 1
    case CastDown => if prev == Down then 1 else if prev == Up then -2 else -1
  }

  /** Events of one vote call: the removal of the old vote first, then the new vote. */
  function VoteEvents(prev: VoteState, b: Ballot, voter: Address, id: nat): seq<Event> {
    var removal :=
      if prev == Up then [RemovedUpvote(voter, id)]
      else if prev == Down then [RemovedDownvote(voter, id)]
      else [];
    var next := Next(prev, b);
    var cast :=
      if next == Up then [Upvoted(voter, id)]
      else if next == Down then [Downvoted(voter, id)]
      else [];
    removal + cast
  }

  /** The tabulated delta is exactly the change of the voter's tally. */
  lemma DeltaIsTallyChange(prev: VoteState, b: Ballot)
    ensures Delta(prev, b) == Tally(Next(prev, b)) - Tally(prev)
  {
  }

  /** The six rows of the table, as the contract's tests fix them. */
  lemma TransitionTable()
    ensures Next(NoVote, CastUp) == Up && Delta(NoVote, CastUp) == 1
    ensures Next(NoVote, CastDown) == Down && Delta(NoVote, CastDown) == -1
    ensures Next(Up, CastUp) == NoVote && Delta(Up, CastUp) == -1
    ensures Next(Down, CastDown) == NoVote && Delta(Down, CastDown) == 1
    ensures Next(Up, CastDown) == Down && Delta(Up, CastDown) == -2
    ensures Next(Down, CastUp) == Up && Delta(Down, CastUp) == 2
  {
  }

  /**
   * Casting the same ballot twice restores the record and cancels the score
   * change exactly when the voter did not hold the opposite vote before.
   */
  lemma RepeatRestores(s: VoteState, b: Ballot)
    ensures Next(Next(s, b), b) == s <==> s != (if b == CastUp then Down else Up)
    ensures Next(Next(s, b), b) == s ==> Delta(s, b) + Delta(Next(s, b), b) == 0
  {
  }

  /** Two events are logged exactly on a switch, removal then new vote; otherwise one. */
  lemma EventsOfSwitch(prev: VoteState, b: Ballot, voter: Address, id: nat)
    ensures var ev := VoteEvents(prev, b, voter, id);
      && (|ev| == 2 <==> prev != NoVote && Next(prev, b) != NoVote)
      && 1 <= |ev| <= 2
      && (Next(prev, b) == Up ==> ev[|ev| - 1] == Upvoted(voter, id))
      && (Next(prev, b) == Down ==> ev[|ev| - 1] == Downvoted(voter, id))
      && (prev == Up ==> ev[0] == RemovedUpvote(voter, id))
      && (prev == Down ==> ev[0] == RemovedDownvote(voter, id))
  {
  }

  /** The record after a series of ballots by one voter. */
  function Run(s: VoteState, bs: seq<Ballot>): VoteState
    decreases |bs|
  {
    if bs == [] then s else Run(Next(s, bs[0]), bs[1..])
  }

  /** The sum of the score changes of a series of ballots by one voter. */
  function SumDeltas(s: VoteState, bs: seq<Ballot>): int
    decreases |bs|
  {
    if bs == [] then 0 else Delta(s, bs[0]) + SumDeltas(Next(s, bs[0]), bs[1..])
  }

  /**
   * Whatever a voter does, the net change they cause is the tally of their
   * final record minus that of the first: one voter moves a score by at most 1
   * from zero, in either direction.
   */
  lemma {:induction false} SumDeltasTelescopes(s: VoteState, bs: seq<Ballot>)
    ensures SumDeltas(s, bs) == Tally(Run(s, bs)) - Tally(s)
    ensures s == NoVote ==> -1 <= SumDeltas(s, bs) <= 1
    decreases |bs|
  {
    if bs != [] {
      DeltaIsTallyChange(s, bs[0]);
      SumDeltasTelescopes(Next(s, bs[0]), bs[1..]);
    }
  }
}
