/**
 * Players, rounds and the per-player column sums that the totals are derived from.
 * A round maps a player id to the points that player scored in it.
 */
module Scores {

  type Round = map<int, int>

  datatype Player = Player(id: int, name: string, total: int, isWinner: bool)

  /** `round[id] || 0`: a player without an entry in a round scored 0 in it. */
  function Entry(round: Round, id: int): int {
    if id in round then round[id] else 0
  }

  /** The sum over all rounds of the entry of player `id`. */
  function ColumnSum(rounds: seq<Round>, id: int): int {
    if rounds == [] then 0 else ColumnSum(rounds[..|rounds| - 1], id) + Entry(rounds[|rounds| - 1], id)
  }

  function PlayerIds(players: seq<Player>): set<int> {
    set p | p in players :: p.id
  }

  /** `round` has an entry for exactly the ids of `players`, and every entry is 0. */
  predicate IsEmptyRoundFor(round: Round, players: seq<Player>) {
    round.Keys == PlayerIds(players) && forall id :: id in round ==> round[id] == 0
  }

  /** Some entry of `round` is positive. */
  predicate HasScores(round: Round) {
    exists id :: id in round && round[id] > 0
  }

  /** No entry of `round` is negative. */
  predicate NoNegativeEntries(round: Round) {
    forall id :: id in round ==> round[id] >= 0
  }

  /** `round` with every positive entry set to 0 and every other entry kept. */
  function ZeroPositives(round: Round): Round {
    map id | id in round :: if round[id] > 0 then 0 else round[id]
  }

  /** Some element of a non-empty set of ids. */
  method AnyKey(ids: set<int>) returns (id: int)
    requires ids != {}
    ensures id in ids
  {
    assert exists x :: x in ids by {
      if forall x :: x !in ids {
        assert false;
      }
    }
    id :| id in ids;
  }

  /** `round` with the positive entries outside `pending` set to 0: the zeroing loop part-way through. */
  function PartlyZeroed(round: Round, pending: set<int>): Round {
    map id | id in round :: if id in pending || round[id] <= 0 then round[id] else 0
  }

  lemma PartlyZeroedStep(round: Round, pending: set<int>, id: int)
    requires id in pending && id in round
    ensures PartlyZeroed(round, pending - {id})
      == PartlyZeroed(round, pending)[id := if round[id] > 0 then 0 else round[id]]
  {
  }

  lemma PartlyZeroedDone(round: Round)
    ensures PartlyZeroed(round, {}) == ZeroPositives(round)
    ensures PartlyZeroed(round, round.Keys) == round
  {
  }

  /** Zeroing the positive entries changes a round exactly when it has one. */
  lemma ZeroPositivesChanges(round: Round)
    ensures ZeroPositives(round) != round <==> HasScores(round)
  {
    if HasScores(round) {
      var id :| id in round && round[id] > 0;
      assert ZeroPositives(round)[id] != round[id];
    } else {
      assert forall id :: id in round ==> ZeroPositives(round)[id] == round[id];
    }
  }

  /** Appending a round adds its entry to every column sum. */
  lemma ColumnSumAppend(rounds: seq<Round>, round: Round, id: int)
    ensures ColumnSum(rounds + [round], id) == ColumnSum(rounds, id) + Entry(round, id)
  {
    assert (rounds + [round])[..|rounds|] == rounds;
  }

  /** Replacing round `k` changes a column sum by the difference of the two entries, and by nothing else. */
  lemma {:induction false} ColumnSumUpdate(rounds: seq<Round>, k: nat, round: Round, id: int)
    requires k < |rounds|
    ensures ColumnSum(rounds[k := round], id) == ColumnSum(rounds, id) - Entry(rounds[k], id) + Entry(round, id)
  {
    var n := |rounds|;
    var updated := rounds[k := round];
    if k == n - 1 {
      assert updated[..n - 1] == rounds[..n - 1];
    } else {
      assert updated[..n - 1] == rounds[..n - 1][k := round];
      ColumnSumUpdate(rounds[..n - 1], k, round, id);
    }
  }

  /** An empty round for `players` has an entry for each of them and adds nothing to their column sums. */
  lemma EmptyRoundFacts(round: Round, players: seq<Player>)
    requires IsEmptyRoundFor(round, players)
    ensures forall i :: 0 <= i < |players| ==> players[i].id in round
    ensures forall id :: ColumnSum([round], id) == 0
  {
    assert [round][..0] == [];
    forall i | 0 <= i < |players| ensures players[i].id in round {
      assert players[i] in players;
    }
  }

  /** Zeroing the positive entries of a round lowers each entry by its positive part and leaves no positive entry. */
  lemma ZeroPositivesEntry(round: Round, id: int)
    ensures Entry(ZeroPositives(round), id) == (if Entry(round, id) > 0 then 0 else Entry(round, id))
    ensures !HasScores(ZeroPositives(round))
  {
  }
}
