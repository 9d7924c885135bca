/**
 * The ten-slot top-users board and the update (`setNewTopUsers`) applied to
 * the poster after every vote.
 */
module TopUsersBoard {
  import opened LedgerTypes
  import opened Slots

  datatype BoardChange = BoardChange(board: seq<Address>, event: Option<Event>)

  /**
   * The board after the poster's score became `score`: a positive score takes
   * the first empty slot unless the poster already holds one; a score of 0 or
   * less empties the poster's slot. A full board is left as it is.
   */
  function BoardAfter(board: seq<Address>, poster: Address, score: int): BoardChange {
    if score > 0 then
      if poster in board then BoardChange(board, None)
      else
        var e := IndexOf(board, Zero);
        if e < |board| then BoardChange(board[e := poster], Some(NewTopUser(poster, Zero)))
        else BoardChange(board, None)
    else
      var k := IndexOf(board, poster);
      if k < |board| then BoardChange(board[k := Zero], Some(NewTopUser(Zero, poster)))
      else BoardChange(board, None)
  }

  /** What the update does to the board, case by case: take an empty slot, stay, stay out, or leave. */
  lemma BoardAfterSpec(board: seq<Address>, poster: Address, score: int)
    requires NoDupNonzero(board) && poster != Zero
    ensures var r := BoardAfter(board, poster, score);
      && |r.board| == |board|
      && NoDupNonzero(r.board)
      && (score > 0 ==> (poster in r.board <==> poster in board || Zero in board))
      && (score <= 0 ==> poster !in r.board)
      && (forall u :: u != poster && u != Zero ==> (u in r.board <==> u in board))
      && (forall i :: 0 <= i < |board| ==>
            r.board[i] == board[i] || r.board[i] == Zero || (r.board[i] == poster && score > 0))
      && (r.event == Some(NewTopUser(poster, Zero)) <==> score > 0 && poster !in board && Zero in board)
      && (r.event == Some(NewTopUser(Zero, poster)) <==> score <= 0 && poster in board)
      && (r.event == None <==> r.board == board)
  {
    var r := BoardAfter(board, poster, score);
    if score > 0 {
      if poster !in board {
        var e := IndexOf(board, Zero);
        if e < |board| {
          assert r.board[e] == poster && r.board != board;
          forall u | u != poster && u != Zero ensures u in r.board <==> u in board {
            if u in board {
              var k :| 0 <= k < |board| && board[k] == u;
              assert r.board[k] == u;
            }
            if u in r.board {
              var k :| 0 <= k < |r.board| && r.board[k] == u;
              assert board[k] == u;
            }
          }
        }
      }
    } else {
      var k := IndexOf(board, poster);
      if k < |board| {
        ClearNoDup(board, k);
        ClearMembership(board, k, poster);
        forall u | u != poster && u != Zero ensures u in r.board <==> u in board {
          ClearMembership(board, k, u);
        }
        assert r.board[k] != board[k];
      }
    }
  }

  /** Index of the first slot of the board holding x (Board.Length when none does). */
  method FindSlot(board: array<Address>, x: Address) returns (i: nat)
    ensures i == IndexOf(board[..], x)
  {
    i := 0;
    while i < board.Length && board[i] != x
      invariant i <= board.Length
      invariant forall j :: 0 <= j < i ==> board[j] != x
    {
      i := i + 1;
    }
  }
}
