/**
 * The episode rules of halite/interpreter/interpreter.py: a player's reward,
 * whether the episode is over, and the status a player ends a step with.
 * Player statuses are the PlayerStatus strings of the constants module.
 */
module Interpreter {
  import Constants

  /** What the rules read of a player: its status string and its halite balance. */
  datatype PlayerRecord = PlayerRecord(status: string, halite: real)

  /** A status that still earns the player its balance. */
  predicate Scoring(status: string)
  {
    status == Constants.PLAYER_ACTIVE || status == Constants.PLAYER_DONE
  }

  /** _reward: the balance of an active or finished player, nothing for any other status. */
  function Reward(player: PlayerRecord): (r: real)
    ensures Scoring(player.status) ==> r == player.halite
    ensures !Scoring(player.status) ==> r == 0.0
  {
    if Scoring(player.status) then player.halite else 0.0
  }

  /** The players whose status is ACTIVE, in order. */
  function ActivePlayers(players: seq<PlayerRecord>): (r: seq<PlayerRecord>)
    ensures |r| <= |players|
    ensures forall p :: p in r <==> p in players && p.status == Constants.PLAYER_ACTIVE
  {
    if players == [] then []
    else (if players[0].status == Constants.PLAYER_ACTIVE then [players[0]] else []) + ActivePlayers(players[1..])
  }

  /** _done: at most one player is still active, in a game of more than one player. */
  function Done(players: seq<PlayerRecord>): (r: bool)
    ensures r ==> |players| >= 2
    ensures r <==> |ActivePlayers(players)| <= 1 && |players| > 1
  {
    |ActivePlayers(players)| <= 1 && |players| > 1
  }

  /** _player_status: an active player is DONE once the episode is done; every other status is kept. */
  function PlayerStatus(player: PlayerRecord, done: bool): (r: string)
    ensures r == Constants.PLAYER_DONE <==> (done && player.status == Constants.PLAYER_ACTIVE) || player.status == Constants.PLAYER_DONE
    ensures r != player.status ==> done && player.status == Constants.PLAYER_ACTIVE
  {
    if done && player.status == Constants.PLAYER_ACTIVE then Constants.PLAYER_DONE else player.status
  }

  /** Every player with the status _player_status gives it. */
  function Finish(players: seq<PlayerRecord>, done: bool): (r: seq<PlayerRecord>)
    ensures |r| == |players|
    ensures forall i :: 0 <= i < |players| ==> r[i] == players[i].(status := PlayerStatus(players[i], done))
  {
    seq(|players|, i requires 0 <= i < |players| => players[i].(status := PlayerStatus(players[i], done)))
  }

  /** A game of one player is never done, however its player stands. */
  lemma SinglePlayerNeverDone(players: seq<PlayerRecord>)
    requires |players| <= 1
    ensures !Done(players)
  {
  }

  /** A game of several players in which everybody but one has lost is done. */
  lemma AllButOneLostIsDone(players: seq<PlayerRecord>, winner: nat)
    requires |players| >= 2 && winner < |players|
    requires forall i :: 0 <= i < |players| && i != winner ==> players[i].status == Constants.PLAYER_LOST
    ensures Done(players)
  {
    ActiveAtMostOne(players, winner);
  }

  /** If only the player at index winner may be active, at most one player is. */
  lemma {:induction false} ActiveAtMostOne(players: seq<PlayerRecord>, winner: int)
    requires forall i :: 0 <= i < |players| && i != winner ==> players[i].status != Constants.PLAYER_ACTIVE
    ensures |ActivePlayers(players)| <= 1
    ensures winner < 0 || winner >= |players| ==> ActivePlayers(players) == []
  {
    if players != [] {
      assert forall i :: 0 <= i < |players| - 1 && i != winner - 1 ==> players[1..][i] == players[i + 1];
      ActiveAtMostOne(players[1..], winner - 1);
    }
  }

  /**
   * Finishing a done episode leaves no player active, turns exactly the
   * active players DONE, and changes no reward: an active player's balance
   * is its reward before and after.
   */
  lemma FinishedEpisode(players: seq<PlayerRecord>)
    requires Done(players)
    ensures ActivePlayers(Finish(players, true)) == []
    ensures forall i :: 0 <= i < |players| ==> Reward(Finish(players, true)[i]) == Reward(players[i])
    ensures forall i :: 0 <= i < |players| ==>
              (Finish(players, true)[i].status == Constants.PLAYER_DONE <==>
               players[i].status == Constants.PLAYER_ACTIVE || players[i].status == Constants.PLAYER_DONE)
  {
    var f := Finish(players, true);
    assert Constants.PLAYER_ACTIVE != Constants.PLAYER_DONE;
    ActiveAtMostOne(f, -1);
  }

  /** While the episode runs, _player_status changes nobody. */
  lemma RunningEpisode(players: seq<PlayerRecord>)
    ensures Finish(players, false) == players
  {
  }
}
