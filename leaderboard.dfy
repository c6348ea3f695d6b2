/** The rank numbering of `get_leaderboard` in main.py. The query that
    aggregates each participant's submissions and orders the participants
    by average score belongs to the database; its rows arrive here in the
    order it returns them. */
module Leaderboard {
  import opened Wrappers

  /** One aggregated row: the participant, how many submissions they have
      and how many are completed, and the average total score (NULL when no
      submission has one). */
  datatype Standing = Standing(
    participantId: int,
    name: string,
    email: string,
    department: Option<string>,
    position: Option<string>,
    totalSubmissions: nat,
    completedSubmissions: nat,
    averageScore: Option<real>)

  /** A row of the leaderboard: the aggregated row and its rank. */
  datatype Entry = Entry(standing: Standing, rank: nat)

  function Standings(board: seq<Entry>): seq<Standing> {
    seq(|board|, i requires 0 <= i < |board| => board[i].standing)
  }

  /** `get_leaderboard`'s loop: every row, in query order, numbered from 1. */
  method RankStandings(rows: seq<Standing>) returns (board: seq<Entry>)
    ensures Standings(board) == rows
    ensures forall i :: 0 <= i < |board| ==> board[i].rank == i + 1
  {
    board := [];
    for i := 0 to |rows|
      invariant |board| == i
      invariant forall k :: 0 <= k < i ==> board[k] == Entry(rows[k], k + 1)
    {
      board := board + [Entry(rows[i], i + 1)];
    }
  }
}
