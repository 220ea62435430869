/**
 * The saved-game slot: what is written after a mutation and how a saved payload is merged
 * back into the state when the page loads.
 */
module Persistence {
  import opened Wrappers
  import opened Scores

  /** The fields of the game state that are saved (the selected cell is not). */
  datatype PersistedState = PersistedState(
    players: seq<Player>, targetScore: int, rounds: seq<Round>, currentPlayerCount: int)

  /** A parsed saved game; each field may be absent. */
  datatype StoredGame = StoredGame(
    players: Option<seq<Player>>, targetScore: Option<int>,
    rounds: Option<seq<Round>>, currentPlayerCount: Option<int>)

  /** The state a new scorekeeper starts from: no players, target 7, no rounds, four players selected. */
  function Defaults(): PersistedState {
    PersistedState([], 7, [], 4)
  }

  /** What saving writes: every field present. */
  function Encode(s: PersistedState): StoredGame {
    StoredGame(Some(s.players), Some(s.targetScore), Some(s.rounds), Some(s.currentPlayerCount))
  }

  /**
   * Each stored field replaces the current one only when it is truthy: a list is truthy
   * whenever it is present, a number only when it is present and not 0.
   */
  function Merge(current: PersistedState, stored: StoredGame): (r: PersistedState)
    ensures stored == StoredGame(None, None, None, None) ==> r == current
    ensures stored.players.Some? ==> r.players == stored.players.value
    ensures stored.players.None? ==> r.players == current.players
    ensures stored.rounds.Some? ==> r.rounds == stored.rounds.value
    ensures stored.rounds.None? ==> r.rounds == current.rounds
    ensures stored.targetScore.Some? && stored.targetScore.value != 0 ==> r.targetScore == stored.targetScore.value
    ensures stored.targetScore.None? || stored.targetScore.value == 0 ==> r.targetScore == current.targetScore
    ensures stored.currentPlayerCount.Some? && stored.currentPlayerCount.value != 0 ==>
      r.currentPlayerCount == stored.currentPlayerCount.value
    ensures stored.currentPlayerCount.None? || stored.currentPlayerCount.value == 0 ==>
      r.currentPlayerCount == current.currentPlayerCount
    ensures r.targetScore == current.targetScore || Some(r.targetScore) == stored.targetScore
    ensures r.currentPlayerCount == current.currentPlayerCount || Some(r.currentPlayerCount) == stored.currentPlayerCount
    ensures r.targetScore == 0 ==> current.targetScore == 0
    ensures r.currentPlayerCount == 0 ==> current.currentPlayerCount == 0
  {
    PersistedState(
      stored.players.GetOr(current.players),
      if stored.targetScore.Some? && stored.targetScore.value != 0 then stored.targetScore.value else current.targetScore,
      stored.rounds.GetOr(current.rounds),
      if stored.currentPlayerCount.Some? && stored.currentPlayerCount.value != 0 then stored.currentPlayerCount.value else current.currentPlayerCount)
  }

  /**
   * Saving a state and loading it into a fresh scorekeeper gives the state back exactly when
   * neither its target nor its player count is 0 (a 0 is falsy and is replaced by the default).
   */
  lemma ReloadRoundTrip(s: PersistedState)
    ensures Merge(Defaults(), Encode(s)) == s <==> s.targetScore != 0 && s.currentPlayerCount != 0
  {
    if s.targetScore == 0 {
      assert Merge(Defaults(), Encode(s)).targetScore == 7;
    }
    if s.currentPlayerCount == 0 {
      assert Merge(Defaults(), Encode(s)).currentPlayerCount == 4;
    }
  }

  /**
   * The state one page load produces is stable: saving it and loading the page again
   * gives the same state, whatever the slot held the first time.
   */
  lemma ReloadIsStable(stored: StoredGame)
    ensures Merge(Defaults(), Encode(Merge(Defaults(), stored))) == Merge(Defaults(), stored)
  {
    ReloadRoundTrip(Merge(Defaults(), stored));
  }
}
