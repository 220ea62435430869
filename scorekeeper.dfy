/**
 * The score-state engine of the All Fours scorekeeper: the players, the per-round point
 * entries, the target score and the cell being edited, with the operations that change them.
 * The two browser storage slots the engine reads and writes are fields of the class.
 */
module Scorekeeper {
  import opened Wrappers
  import opened JsStrings
  import opened Scores
  import opened History
  import opened Persistence

  /** The cell whose scoring dialog is open. */
  datatype Cell = Cell(roundIndex: nat, playerId: int)

  /** The name a player whose name field is blank gets: `Player i`. */
  function DefaultName(i: nat): (name: string)
    ensures name != [] && IsTrimmed(name)
  {
    var digits := NatToString(i);
    DigitIsNotWhitespace(digits[|digits| - 1]);
    var name := "Player " + digits;
    assert name[0] == 'P' && name[|name| - 1] == digits[|digits| - 1];
    name
  }

  /** The name of player `i`: the trimmed text of its name field, or `Player i` when that is blank. */
  function PlayerName(input: string, i: nat): (name: string)
    ensures name != [] && IsTrimmed(name)
    ensures !AllWhitespace(input) ==> name == Trim(input)
    ensures AllWhitespace(input) ==> name == "Player " + NatToString(i)
  {
    var trimmed := Trim(input);
    if trimmed != [] then trimmed else DefaultName(i)
  }

  /** Players 1 to `n`, named from the name fields, with no points and no win. */
  function InitialPlayers(nameInputs: seq<string>, n: nat): seq<Player>
    requires n <= |nameInputs|
  {
    if n == 0 then [] else InitialPlayers(nameInputs, n - 1) + [Player(n, PlayerName(nameInputs[n - 1], n), 0, false)]
  }

  /** The initial list has one player per name field used, player `j + 1` at index `j`, named from field `j`. */
  lemma {:induction false} InitialPlayersAt(nameInputs: seq<string>, n: nat)
    requires n <= |nameInputs|
    ensures |InitialPlayers(nameInputs, n)| == n
    ensures forall j :: 0 <= j < n ==>
      InitialPlayers(nameInputs, n)[j] == Player(j + 1, PlayerName(nameInputs[j], j + 1), 0, false)
  {
    if n > 0 {
      InitialPlayersAt(nameInputs, n - 1);
      var before := InitialPlayers(nameInputs, n - 1);
      var after := InitialPlayers(nameInputs, n);
      assert after == before + [Player(n, PlayerName(nameInputs[n - 1], n), 0, false)];
      forall j | 0 <= j < n - 1
        ensures after[j] == Player(j + 1, PlayerName(nameInputs[j], j + 1), 0, false)
      {
        assert after[j] == before[j];
      }
    }
  }

  /**
   * The players a new game starts with: players 1 to `count`, named from the name fields
   * (`nameInputs[i - 1]` holds player i's), with no points and no win.
   */
  method NewPlayers(nameInputs: seq<string>, count: int) returns (ps: seq<Player>)
    requires count <= |nameInputs|
    ensures |ps| == if count > 0 then count else 0
    ensures forall j :: 0 <= j < |ps| ==> ps[j] == Player(j + 1, PlayerName(nameInputs[j], j + 1), 0, false)
  {
    ps := [];
    var i := 1;
    while i <= count
      invariant 1 <= i <= (if count > 0 then count + 1 else 1)
      invariant ps == InitialPlayers(nameInputs, i - 1)
    {
      var name := PlayerName(nameInputs[i - 1], i);
      ps := ps + [Player(i, name, 0, false)];
      i := i + 1;
    }
    InitialPlayersAt(nameInputs, i - 1);
  }

  /**
   * The answer to the "new target" prompt that is accepted (`None` for a cancelled prompt):
   * a non-empty, numeric text whose `parseInt` is positive. Anything else is rejected.
   */
  function AcceptedTarget(answer: Option<string>): (t: Option<int>)
    ensures t.Some? ==> t.value > 0
    ensures t.Some? <==> answer.Some? && answer.value != [] && IsNumericString(answer.value)
                         && ParseInt(answer.value).Some? && ParseInt(answer.value).value > 0
    ensures t.Some? ==> ParseInt(answer.value) == t
  {
    match answer
    case None => None
    case Some(text) =>
      if text != [] && IsNumericString(text) && ParseInt(text).Some? && ParseInt(text).value > 0
      then ParseInt(text)
      else None
  }

  /** The target typed into the custom-target field: its `parseInt`, or 7 when that is NaN or 0. */
  function CustomTarget(text: string): (t: int)
    ensures t != 0
    ensures ParseInt(text).Some? && ParseInt(text).value != 0 ==> t == ParseInt(text).value
    ensures ParseInt(text).None? || ParseInt(text).value == 0 ==> t == 7
  {
    match ParseInt(text)
    case Some(v) => if v != 0 then v else 7
    case None => 7
  }

  /** The prompt accepts the decimal text of every positive number, as that number. */
  lemma ChangeTargetAcceptsPositive(n: nat)
    requires n > 0
    ensures AcceptedTarget(Some(NatToString(n))) == Some(n)
  {
    DecimalTextParses(n);
  }

  /**
   * A negative number is rejected by the prompt but taken as the target by the custom-target
   * field; 0 is rejected by the prompt and replaced by 7 in the field.
   */
  lemma NegativeTargetOnlyThroughField(n: nat)
    requires n > 0
    ensures AcceptedTarget(Some("-" + NatToString(n))) == None
    ensures CustomTarget("-" + NatToString(n)) == -(n as int)
  {
    NegativeTextParses(n);
  }

  /** A 0 is rejected by the prompt and replaced by 7 in the custom-target field. */
  lemma ZeroTargetRejected()
    ensures AcceptedTarget(Some(NatToString(0))) == None
    ensures CustomTarget(NatToString(0)) == 7
  {
    DecimalTextParses(0);
  }

  /**
   * `12px` is rejected by the prompt, which also asks that the text be numeric, but the
   * custom-target field takes it as 12.
   */
  lemma TrailingTextOnlyThroughField()
    ensures AcceptedTarget(Some("12px")) == None
    ensures CustomTarget("12px") == 12
  {
    DigitsThenLettersParseButAreNaN();
  }

  /** The prompt accepts a hexadecimal answer: `0x1A` sets the target to 26. */
  lemma HexTargetAccepted()
    ensures AcceptedTarget(Some("0x1A")) == Some(26)
  {
    HexTextParses();
  }

  class AllFoursScorekeeper {
    var players: seq<Player>
    var targetScore: int
    var rounds: seq<Round>
    var currentPlayerCount: int
    var selectedCell: Option<Cell>
    /** The saved-game storage slot; `None` when it is empty or does not parse. */
    var gameSlot: Option<StoredGame>
    /** The history storage slot; `None` when it is empty or does not parse. */
    var historySlot: Option<seq<GameRecord>>

    /** The saved part of the state. */
    function Persisted(): PersistedState
      reads this`players, this`targetScore, this`rounds, this`currentPlayerCount
    {
      PersistedState(players, targetScore, rounds, currentPlayerCount)
    }

    /** Every player's total is the sum of its entries over all rounds. */
    ghost predicate TotalsMatchRounds()
      reads this`players, this`rounds
    {
      forall i :: 0 <= i < |players| ==> players[i].total == ColumnSum(rounds, players[i].id)
    }

    /** Every player's winner flag says whether its total has reached the target. */
    ghost predicate FlagsFollowTarget()
      reads this`players, this`targetScore
    {
      forall i :: 0 <= i < |players| ==> players[i].isWinner == (players[i].total >= targetScore)
    }

    predicate HasWinner()
      reads this`players
    {
      exists i :: 0 <= i < |players| && players[i].isWinner
    }

    /** Every round has an entry for every player. */
    ghost predicate RoundsCoverPlayers()
      reads this`players, this`rounds
    {
      forall r, i :: 0 <= r < |rounds| && 0 <= i < |players| ==> players[i].id in rounds[r]
    }

    /** The selected cell, if any, lies in an existing round. */
    ghost predicate SelectionInRange()
      reads this`selectedCell, this`rounds
    {
      selectedCell.Some? ==> selectedCell.value.roundIndex < |rounds|
    }

    /** `players` and `before` list the same players in the same order, totals and flags aside. */
    ghost predicate SamePlayers(before: seq<Player>)
      reads this`players
    {
      |players| == |before| &&
      forall i :: 0 <= i < |players| ==> players[i].id == before[i].id && players[i].name == before[i].name
    }

    /** A new scorekeeper holds the defaults merged with the saved game, if one is stored. */
    constructor (storedGame: Option<StoredGame>, storedHistory: Option<seq<GameRecord>>)
      ensures Persisted() == if storedGame.Some? then Merge(Defaults(), storedGame.value) else Defaults()
      ensures selectedCell == None && gameSlot == storedGame && historySlot == storedHistory
    {
      players := [];
      targetScore := 7;
      rounds := [];
      currentPlayerCount := 4;
      selectedCell := None;
      gameSlot := storedGame;
      historySlot := storedHistory;
      new;
      LoadGameState();
    }

    // -------------------------------------------------------------------------
    // History

    /** The stored history, or the empty list when the slot is empty or corrupt. */
    function LoadGameHistory(): (history: seq<GameRecord>)
      reads this`historySlot
      ensures historySlot.None? ==> history == []
      ensures historySlot.Some? ==> history == historySlot.value
    {
      match historySlot
      case Some(h) => h
      case None => []
    }

    /** Appends one record for a finished game to the stored history, keeping the earlier records in order. */
    method SaveCompletedGame(player1: string, score1: int, player2: string, score2: int)
      modifies this`historySlot
      ensures historySlot == Some(old(LoadGameHistory()) + [CompletedGame(player1, score1, player2, score2)])
    {
      var gameData := CompletedGame(player1, score1, player2, score2);
      var history := LoadGameHistory();
      history := history + [gameData];
      historySlot := Some(history);
    }

    /** Empties the history slot, only when the user confirms. */
    method ClearGameHistory(confirmed: bool)
      modifies this`historySlot
      ensures historySlot == if confirmed then None else old(historySlot)
    {
      if confirmed {
        historySlot := None;
      }
    }

    // -------------------------------------------------------------------------
    // Persistence

    method SaveGameState()
      modifies this`gameSlot
      ensures gameSlot == Some(Encode(Persisted()))
    {
      gameSlot := Some(StoredGame(Some(players), Some(targetScore), Some(rounds), Some(currentPlayerCount)));
    }

    /** Merges the saved game, if one is stored, into the state field by field. */
    method LoadGameState()
      modifies this`players, this`targetScore, this`rounds, this`currentPlayerCount
      ensures Persisted() == if gameSlot.Some? then Merge(old(Persisted()), gameSlot.value) else old(Persisted())
    {
      if gameSlot.Some? {
        var state := gameSlot.value;
        if state.players.Some? {
          players := state.players.value;
        }
        if state.targetScore.Some? && state.targetScore.value != 0 {
          targetScore := state.targetScore.value;
        }
        if state.rounds.Some? {
          rounds := state.rounds.value;
        }
        if state.currentPlayerCount.Some? && state.currentPlayerCount.value != 0 {
          currentPlayerCount := state.currentPlayerCount.value;
        }
      }
    }

    // -------------------------------------------------------------------------
    // Game start

    /** A round with a 0 entry for every current player and no other entry. */
    method CreateEmptyRound() returns (round: Round)
      ensures IsEmptyRoundFor(round, players)
    {
      var ps := players;
      round := map[];
      var i := 0;
      while i < |ps|
        invariant 0 <= i <= |ps|
        invariant IsEmptyRoundFor(round, ps[..i])
      {
        assert ps[..i + 1] == ps[..i] + [ps[i]];
        assert PlayerIds(ps[..i + 1]) == PlayerIds(ps[..i]) + {ps[i].id};
        round := round[ps[i].id := 0];
        i := i + 1;
      }
      assert ps[..|ps|] == ps;
    }

    /**
     * Builds players 1 to `currentPlayerCount` from the name fields (`nameInputs[i - 1]` holds
     * player i's), with no points and no win, and seeds the game with one empty round.
     */
    method StartGame(nameInputs: seq<string>)
      requires currentPlayerCount <= |nameInputs|
      modifies this`players, this`rounds, this`gameSlot
      ensures |players| == if currentPlayerCount > 0 then currentPlayerCount else 0
      ensures forall i :: 0 <= i < |players| ==> players[i] == Player(i + 1, PlayerName(nameInputs[i], i + 1), 0, false)
      ensures |rounds| == 1 && IsEmptyRoundFor(rounds[0], players)
      ensures TotalsMatchRounds() && RoundsCoverPlayers() && !HasWinner()
      ensures gameSlot == Some(Encode(Persisted()))
    {
      var ps := NewPlayers(nameInputs, currentPlayerCount);
      players := ps;
      assert !HasWinner();
      var round := CreateEmptyRound();
      rounds := [round];
      EmptyRoundFacts(round, players);
      assert RoundsCoverPlayers();
      SaveGameState();
    }

    // -------------------------------------------------------------------------
    // Rounds

    /** Appends an empty round; totals that matched the rounds still do. */
    method AddRound()
      modifies this`rounds, this`gameSlot
      ensures |rounds| == old(|rounds|) + 1 && rounds[..old(|rounds|)] == old(rounds)
      ensures IsEmptyRoundFor(rounds[old(|rounds|)], players)
      ensures old(TotalsMatchRounds()) ==> TotalsMatchRounds()
      ensures old(RoundsCoverPlayers()) ==> RoundsCoverPlayers()
      ensures gameSlot == Some(Encode(Persisted()))
    {
      var round := CreateEmptyRound();
      ghost var before := rounds;
      rounds := rounds + [round];
      assert rounds[..|before|] == before;
      forall i | 0 <= i < |players|
        ensures ColumnSum(rounds, players[i].id) == ColumnSum(before, players[i].id)
      {
        ColumnSumAppend(before, round, players[i].id);
      }
      SaveGameState();
    }

    // -------------------------------------------------------------------------
    // Derivation

    /** Recomputes every total as the sum of the player's entries over all rounds and clears every winner flag. */
    method UpdateTotals()
      modifies this`players
      ensures SamePlayers(old(players))
      ensures TotalsMatchRounds()
      ensures forall i :: 0 <= i < |players| ==> !players[i].isWinner
    {
      var ps := players;
      var i := 0;
      while i < |ps|
        invariant 0 <= i <= |ps| == |players|
        invariant forall j :: 0 <= j < i ==> ps[j] == players[j].(total := 0, isWinner := false)
        invariant forall j :: i <= j < |ps| ==> ps[j] == players[j]
      {
        ps := ps[i := ps[i].(total := 0, isWinner := false)];
        i := i + 1;
      }
      var r := 0;
      while r < |rounds|
        invariant 0 <= r <= |rounds|
        invariant |ps| == |players|
        invariant forall j :: 0 <= j < |ps| ==>
          ps[j] == players[j].(total := ColumnSum(rounds[..r], players[j].id), isWinner := false)
      {
        assert rounds[..r + 1][..r] == rounds[..r];
        var j := 0;
        while j < |ps|
          invariant 0 <= j <= |ps| == |players|
          invariant forall k :: 0 <= k < j ==>
            ps[k] == players[k].(total := ColumnSum(rounds[..r + 1], players[k].id), isWinner := false)
          invariant forall k :: j <= k < |ps| ==>
            ps[k] == players[k].(total := ColumnSum(rounds[..r], players[k].id), isWinner := false)
        {
          ps := ps[j := ps[j].(total := ps[j].total + Entry(rounds[r], ps[j].id))];
          j := j + 1;
        }
        r := r + 1;
      }
      assert rounds[..|rounds|] == rounds;
      players := ps;
    }

    /**
     * Sets each player's winner flag to whether its total has reached the target; when any
     * flag is set, the victory is announced and recorded.
     */
    method CheckForWinner() returns (winnerFound: bool)
      modifies this`players, this`historySlot
      ensures SamePlayers(old(players))
      ensures forall i :: 0 <= i < |players| ==> players[i].total == old(players[i].total)
      ensures FlagsFollowTarget()
      ensures winnerFound <==> HasWinner()
      ensures historySlot == if winnerFound && |players| >= 2
        then Some(old(LoadGameHistory()) + [CompletedGame(players[0].name, players[0].total, players[1].name, players[1].total)])
        else old(historySlot)
    {
      winnerFound := false;
      var ps := players;
      var i := 0;
      while i < |ps|
        invariant 0 <= i <= |ps| == |players|
        invariant forall j :: 0 <= j < i ==> ps[j] == players[j].(isWinner := players[j].total >= targetScore)
        invariant forall j :: i <= j < |ps| ==> ps[j] == players[j]
        invariant winnerFound <==> exists j :: 0 <= j < i && ps[j].isWinner
      {
        ps := ps[i := ps[i].(isWinner := ps[i].total >= targetScore)];
        if ps[i].isWinner {
          winnerFound := true;
        }
        i := i + 1;
      }
      players := ps;
      if winnerFound {
        TriggerVictory();
      }
    }

    /** Records the finished game between the first two players, when there are at least two. */
    method TriggerVictory()
      modifies this`historySlot
      ensures historySlot == if |players| >= 2
        then Some(old(LoadGameHistory()) + [CompletedGame(players[0].name, players[0].total, players[1].name, players[1].total)])
        else old(historySlot)
    {
      if |players| >= 2 {
        var p1, p2 := players[0], players[1];
        SaveCompletedGame(p1.name, p1.total, p2.name, p2.total);
      }
    }

    // -------------------------------------------------------------------------
    // Scoring

    method OpenScoreModal(roundIndex: nat, playerId: int)
      modifies this`selectedCell
      ensures selectedCell == Some(Cell(roundIndex, playerId))
    {
      selectedCell := Some(Cell(roundIndex, playerId));
    }

    method HideModal()
      modifies this`selectedCell
      ensures selectedCell == None
    {
      selectedCell := None;
    }

    /**
     * Stores the dialog's number (`parsed`, 0 when it does not parse) in the selected cell,
     * without clamping, then recomputes totals and winners and closes the dialog. Only the
     * selected cell changes, so when the totals matched the rounds before, only its player's
     * total moves. Without a selection it does nothing.
     */
    method ApplyPoints(parsed: Option<int>) returns (winnerFound: bool)
      requires SelectionInRange()
      modifies this`rounds, this`players, this`historySlot, this`gameSlot, this`selectedCell
      ensures old(selectedCell).None? ==> unchanged(this) && !winnerFound
      ensures old(selectedCell).Some? ==>
        var c := old(selectedCell).value;
        && rounds == old(rounds)[c.roundIndex := old(rounds)[c.roundIndex][c.playerId := parsed.GetOr(0)]]
        && SamePlayers(old(players))
        && TotalsMatchRounds() && FlagsFollowTarget()
        && (winnerFound <==> HasWinner())
        && historySlot == (if winnerFound && |players| >= 2
             then Some(old(LoadGameHistory()) + [CompletedGame(players[0].name, players[0].total, players[1].name, players[1].total)])
             else old(historySlot))
        && gameSlot == Some(Encode(Persisted()))
        && selectedCell == None
      ensures old(selectedCell).Some? && old(TotalsMatchRounds()) ==>
        var c := old(selectedCell).value;
        forall i :: 0 <= i < |players| ==>
          players[i].total == old(players[i].total)
            + (if players[i].id == c.playerId then parsed.GetOr(0) - Entry(old(rounds)[c.roundIndex], c.playerId) else 0)
    {
      if selectedCell.None? {
        return false;
      }
      var c := selectedCell.value;
      var points := parsed.GetOr(0);
      ghost var roundsBefore, playersBefore := rounds, players;
      ghost var totalsMatched := TotalsMatchRounds();
      var round := rounds[c.roundIndex][c.playerId := points];
      rounds := rounds[c.roundIndex := round];
      UpdateTotals();
      winnerFound := CheckForWinner();
      SaveGameState();
      HideModal();
      if totalsMatched {
        forall i | 0 <= i < |players|
          ensures players[i].total == playersBefore[i].total
            + (if players[i].id == c.playerId then points - Entry(roundsBefore[c.roundIndex], c.playerId) else 0)
        {
          ColumnSumUpdate(roundsBefore, c.roundIndex, round, players[i].id);
        }
      }
    }

    /**
     * The quick-add buttons: adds `points` to the first player's entry in the last round,
     * then recomputes totals and winners; when the totals matched the rounds before, that
     * player's total rises by `points`.
     */
    method HandleQuickAdd(points: int) returns (winnerFound: bool)
      requires |rounds| > 0 && |players| > 0 && players[0].id in rounds[|rounds| - 1]
      modifies this`rounds, this`players, this`historySlot, this`gameSlot
      ensures
        var last, id := old(|rounds|) - 1, old(players[0].id);
        rounds == old(rounds)[last := old(rounds)[last][id := old(rounds)[last][id] + points]]
      ensures SamePlayers(old(players))
      ensures TotalsMatchRounds() && FlagsFollowTarget()
      ensures winnerFound <==> HasWinner()
      ensures historySlot == if winnerFound && |players| >= 2
        then Some(old(LoadGameHistory()) + [CompletedGame(players[0].name, players[0].total, players[1].name, players[1].total)])
        else old(historySlot)
      ensures gameSlot == Some(Encode(Persisted()))
      ensures old(TotalsMatchRounds()) ==>
        forall i :: 0 <= i < |players| ==>
          players[i].total == old(players[i].total) + (if players[i].id == players[0].id then points else 0)
    {
      ghost var roundsBefore, playersBefore := rounds, players;
      ghost var totalsMatched := TotalsMatchRounds();
      var lastRoundIndex := |rounds| - 1;
      var firstPlayer := players[0];
      var round := rounds[lastRoundIndex][firstPlayer.id := rounds[lastRoundIndex][firstPlayer.id] + points];
      rounds := rounds[lastRoundIndex := round];
      UpdateTotals();
      winnerFound := CheckForWinner();
      SaveGameState();
      if totalsMatched {
        forall i | 0 <= i < |players|
          ensures players[i].total == playersBefore[i].total + (if players[i].id == firstPlayer.id then points else 0)
        {
          ColumnSumUpdate(roundsBefore, lastRoundIndex, round, players[i].id);
        }
      }
    }

    // -------------------------------------------------------------------------
    // Undo

    /** Sets every positive entry of `round` to 0 and reports whether there was one. */
    method ZeroPositiveEntries(round: Round) returns (zeroed: Round, hasScores: bool)
      ensures zeroed == ZeroPositives(round)
      ensures hasScores <==> HasScores(round)
    {
      zeroed := round;
      hasScores := false;
      var remaining := round.Keys;
      PartlyZeroedDone(round);
      while remaining != {}
        invariant remaining <= round.Keys
        invariant zeroed == PartlyZeroed(round, remaining)
        invariant hasScores <==> zeroed != round
        decreases |remaining|
      {
        var playerId := AnyKey(remaining);
        PartlyZeroedStep(round, remaining, playerId);
        if zeroed[playerId] > 0 {
          hasScores := true;
          zeroed := zeroed[playerId := 0];
        }
        remaining := remaining - {playerId};
      }
      ZeroPositivesChanges(round);
    }

    /**
     * Undo works on the last round. If it has a positive entry, those entries become 0, the
     * round stays, and totals are recomputed (which clears every winner flag). Otherwise, if
     * there is more than one round, the last round is removed. Otherwise nothing changes.
     * Earlier rounds are never touched.
     */
    method UndoLastEntry()
      modifies this`rounds, this`players, this`gameSlot
      ensures old(|rounds|) == 0 ==> unchanged(this)
      ensures old(|rounds|) > 0 && HasScores(old(rounds[|rounds| - 1])) ==>
        && rounds == old(rounds)[old(|rounds|) - 1 := ZeroPositives(old(rounds[|rounds| - 1]))]
        && SamePlayers(old(players))
        && TotalsMatchRounds()
        && (forall i :: 0 <= i < |players| ==> !players[i].isWinner)
        && gameSlot == Some(Encode(Persisted()))
      ensures old(|rounds|) > 0 && HasScores(old(rounds[|rounds| - 1])) && old(TotalsMatchRounds()) ==>
        forall i :: 0 <= i < |players| ==>
          var e := Entry(old(rounds[|rounds| - 1]), players[i].id);
          players[i].total == old(players[i].total) - (if e > 0 then e else 0)
      ensures old(|rounds|) > 1 && !HasScores(old(rounds[|rounds| - 1])) ==>
        && rounds == old(rounds[..|rounds| - 1])
        && players == old(players)
        && gameSlot == Some(Encode(Persisted()))
      ensures old(|rounds|) > 1 && !HasScores(old(rounds[|rounds| - 1])) && old(TotalsMatchRounds())
              && NoNegativeEntries(old(rounds[|rounds| - 1])) ==>
        TotalsMatchRounds()
      ensures old(|rounds|) == 1 && !HasScores(old(rounds[0])) ==> unchanged(this)
    {
      if |rounds| > 0 {
        ghost var roundsBefore, playersBefore := rounds, players;
        ghost var totalsMatched := TotalsMatchRounds();
        var n := |rounds|;
        var lastRound, hasScores := ZeroPositiveEntries(rounds[n - 1]);
        if hasScores {
          rounds := rounds[n - 1 := lastRound];
          UpdateTotals();
          SaveGameState();
          if totalsMatched {
            forall i | 0 <= i < |players|
              ensures var e := Entry(roundsBefore[n - 1], players[i].id);
                players[i].total == playersBefore[i].total - (if e > 0 then e else 0)
            {
              ColumnSumUpdate(roundsBefore, n - 1, lastRound, players[i].id);
              ZeroPositivesEntry(roundsBefore[n - 1], players[i].id);
            }
          }
        } else if n > 1 {
          rounds := rounds[..n - 1];
          SaveGameState();
          forall i | 0 <= i < |players|
            ensures Entry(roundsBefore[n - 1], players[i].id) >= 0 ==>
              ColumnSum(rounds, players[i].id) == ColumnSum(roundsBefore, players[i].id)
          {
          }
        }
      }
    }

    // -------------------------------------------------------------------------
    // Reset and target

    /** One empty round; every player keeps its id and name, with total 0 and no win. */
    method ResetScores()
      modifies this`rounds, this`players, this`gameSlot
      ensures |rounds| == 1 && IsEmptyRoundFor(rounds[0], players)
      ensures SamePlayers(old(players))
      ensures forall i :: 0 <= i < |players| ==> players[i].total == 0 && !players[i].isWinner
      ensures TotalsMatchRounds() && RoundsCoverPlayers()
      ensures gameSlot == Some(Encode(Persisted()))
    {
      var round := CreateEmptyRound();
      rounds := [round];
      var ps := players;
      var i := 0;
      while i < |ps|
        invariant 0 <= i <= |ps| == |players|
        invariant forall j :: 0 <= j < i ==> ps[j] == players[j].(total := 0, isWinner := false)
        invariant forall j :: i <= j < |ps| ==> ps[j] == players[j]
      {
        ps := ps[i := ps[i].(total := 0, isWinner := false)];
        i := i + 1;
      }
      assert PlayerIds(ps) == PlayerIds(players) by {
        forall id | id in PlayerIds(players) ensures id in PlayerIds(ps) {
          var p :| p in players && p.id == id;
          var j :| 0 <= j < |players| && players[j] == p;
          assert ps[j].id == id;
        }
        forall id | id in PlayerIds(ps) ensures id in PlayerIds(players) {
          var p :| p in ps && p.id == id;
          var j :| 0 <= j < |ps| && ps[j] == p;
          assert players[j].id == id;
        }
      }
      players := ps;
      EmptyRoundFacts(round, players);
      SaveGameState();
    }

    /** "Clear game": resets the scores when the user confirms; otherwise nothing changes. */
    method ClearGame(confirmed: bool)
      modifies this`rounds, this`players, this`gameSlot
      ensures !confirmed ==> unchanged(this)
      ensures confirmed ==>
        && |rounds| == 1 && IsEmptyRoundFor(rounds[0], players)
        && SamePlayers(old(players))
        && (forall i :: 0 <= i < |players| ==> players[i].total == 0 && !players[i].isWinner)
        && gameSlot == Some(Encode(Persisted()))
    {
      if confirmed {
        ResetScores();
      }
    }

    /** "New game" with the same players: the same reset as `ClearGame`. */
    method NewGame(confirmed: bool)
      modifies this`rounds, this`players, this`gameSlot
      ensures !confirmed ==> unchanged(this)
      ensures confirmed ==>
        && |rounds| == 1 && IsEmptyRoundFor(rounds[0], players)
        && SamePlayers(old(players))
        && (forall i :: 0 <= i < |players| ==> players[i].total == 0 && !players[i].isWinner)
        && gameSlot == Some(Encode(Persisted()))
    {
      if confirmed {
        ResetScores();
      }
    }

    /**
     * "Change target": an accepted answer becomes the target and the winner flags are
     * recomputed against it (recording a victory if one results); a rejected or cancelled
     * answer changes nothing.
     */
    method ChangeTarget(answer: Option<string>) returns (winnerFound: bool)
      modifies this`targetScore, this`players, this`historySlot, this`gameSlot
      ensures AcceptedTarget(answer).None? ==> unchanged(this) && !winnerFound
      ensures AcceptedTarget(answer).Some? ==>
        && targetScore == AcceptedTarget(answer).value
        && SamePlayers(old(players))
        && (forall i :: 0 <= i < |players| ==> players[i].total == old(players[i].total))
        && FlagsFollowTarget()
        && (winnerFound <==> HasWinner())
        && historySlot == (if winnerFound && |players| >= 2
             then Some(old(LoadGameHistory()) + [CompletedGame(players[0].name, players[0].total, players[1].name, players[1].total)])
             else old(historySlot))
        && gameSlot == Some(Encode(Persisted()))
    {
      winnerFound := false;
      var newTarget := AcceptedTarget(answer);
      if newTarget.Some? {
        targetScore := newTarget.value;
        winnerFound := CheckForWinner();
        SaveGameState();
      }
    }

    /** The custom-target field: its text becomes the target, with 7 in place of NaN or 0 and no other check. */
    method SetCustomTarget(text: string)
      modifies this`targetScore
      ensures targetScore == CustomTarget(text)
    {
      targetScore := CustomTarget(text);
    }
  }
}
