/**
 * The in-memory game session: owns a dealer, starts a game by dealing to the
 * requested number of seats, hands the turn round the table, and answers
 * questions about the seated players.
 */
module GameManagers {
  import opened Js
  import opened Cards
  import opened Decks
  import opened Dealers

  /** The snapshot of a session that has not started. */
  const Idle: GameState := GameState([], [], 0, false)

  /** The seat that holds the turn after `idx` at a table of `n` seats. */
  function Step(idx: int, n: int): (r: int)
    requires 0 <= idx < n
    ensures 0 <= r < n
    ensures idx < n - 1 ==> r == idx + 1
    ensures idx == n - 1 ==> r == 0
  {
    (idx + 1) % n
  }

  /** The seat holding the turn after `k` turns have passed from `idx`. */
  function StepN(idx: int, n: int, k: nat): (r: int)
    requires 0 <= idx < n
    ensures 0 <= r < n
  {
    if k == 0 then idx else Step(StepN(idx, n, k - 1), n)
  }

  /** Passing the turn `k` times, up to a full round, moves `k` seats round the table. */
  lemma {:induction false} StepNRotates(idx: int, n: int, k: nat)
    requires 0 <= idx < n && k <= n
    ensures StepN(idx, n, k) == if idx + k < n then idx + k else idx + k - n
  {
    if k > 0 {
      StepNRotates(idx, n, k - 1);
    }
  }

  /** A full round of turns gives the turn back, and no seat has it twice within the round. */
  lemma FullRoundReturns(idx: int, n: int)
    requires 0 <= idx < n
    ensures StepN(idx, n, n) == idx
    ensures forall j, k :: 0 <= j < k < n ==> StepN(idx, n, j) != StepN(idx, n, k)
  {
    StepNRotates(idx, n, n);
    forall j, k | 0 <= j < k < n ensures StepN(idx, n, j) != StepN(idx, n, k) {
      StepNRotates(idx, n, j);
      StepNRotates(idx, n, k);
    }
  }

  /** The seats of a table of at most four players have different identifiers. */
  lemma SeatIdsDistinct(i: nat, j: nat)
    requires i < 4 && j < 4 && i != j
    ensures SeatId(i) != SeatId(j)
  {
    assert SeatId(i)[7] == Digit(i + 1);
    assert SeatId(j)[7] == Digit(j + 1);
  }

  /**
   * A table dealt from a deck holding enough cards: the flagged seat exists,
   * it is the only flagged one, it is the seat `findIndex` locates, and the
   * seats carry the dealer's identifiers in order.
   */
  lemma DealtTable(d: seq<Card>, n: nat)
    requires 2 <= n <= 4 && 13 * n <= |d|
    ensures var seated := Seated(d, n);
            var seat := StartingSeat(seated);
            var ps := MarkStarting(seated, seat);
            && seat.Some? && |ps| == n
            && (forall k :: 0 <= k < n ==> ps[k].id == SeatId(k))
            && (forall k :: 0 <= k < n ==> (ps[k].isStartingPlayer <==> k == seat.value))
            && FindIndex(ps, IsStartingPlayer) == seat.value
  {
    var seated := Seated(d, n);
    DealPicksStartingSeat(d, n);
    var seat := StartingSeat(seated).value;
    forall k | 0 <= k < n ensures !seated[k].isStartingPlayer && seated[k].id == SeatId(k) {
      DealtSeat(d, n, k);
    }
    MarkStartingExactlyOne(seated, seat);
  }

  class GameManager {
    const dealer: Dealer
    var gameState: GameState
    /** The seat the dealer flagged as starting player in the game in progress. */
    ghost var startSeat: nat

    /**
     * A session in progress seats two to four players with identifiers
     * `player-1`, `player-2`, ..., exactly one of them flagged as the
     * starting player, and the turn at one of them. A session not in
     * progress seats nobody and its dealer's deck is complete.
     */
    ghost predicate Valid()
      reads this, dealer.deck
    {
      && dealer.Valid()
      && gameState.deck == []
      && (gameState.gameStarted ==>
            && 2 <= |gameState.players| <= 4
            && 0 <= gameState.currentPlayerIndex < |gameState.players|
            && startSeat < |gameState.players|
            && (forall k :: 0 <= k < |gameState.players| ==> gameState.players[k].id == SeatId(k))
            && (forall k :: 0 <= k < |gameState.players| ==>
                  (gameState.players[k].isStartingPlayer <==> k == startSeat)))
      && (!gameState.gameStarted ==>
            && gameState == Idle
            && |dealer.deck.cards| == 52)
    }

    /** A new manager owns a new dealer and no game is in progress. */
    constructor ()
      ensures Valid() && fresh(dealer) && fresh(dealer.deck)
      ensures gameState == Idle
      ensures multiset(dealer.deck.cards) == multiset(FullDeck())
    {
      dealer := new Dealer();
      gameState := Idle;
    }

    /**
     * `startNewGame`: throws while a game is in progress and passes on the
     * dealer's error for a bad player count; otherwise seats the dealt
     * players and gives the turn to the flagged starting player.
     */
    method StartNewGame(playerCount: int) returns (r: Result<GameState, GameError>)
      requires Valid()
      modifies this, dealer.deck
      ensures Valid()
      ensures old(gameState.gameStarted) ==>
                r == Err(GameAlreadyInProgress) && gameState == old(gameState) &&
                dealer.deck.cards == old(dealer.deck.cards)
      ensures !old(gameState.gameStarted) && (playerCount < 2 || playerCount > 4) ==>
                r == Err(InvalidPlayerCount) && gameState == old(gameState) &&
                dealer.deck.cards == old(dealer.deck.cards)
      ensures !old(gameState.gameStarted) && 2 <= playerCount <= 4 ==>
                var seated := Seated(old(dealer.deck.cards), playerCount);
                var seat := StartingSeat(seated);
                && seat.Some?
                && gameState == GameState(MarkStarting(seated, seat), [], seat.value, true)
                && startSeat == seat.value
                && r == Ok(gameState)
                && dealer.deck.cards == old(dealer.deck.cards)[13 * playerCount..]
    {
      if gameState.gameStarted {
        return Err(GameAlreadyInProgress);
      }
      ghost var d := dealer.deck.cards;
      var dealt := dealer.DealToPlayers(playerCount);
      if dealt.Err? {
        return Err(dealt.error);
      }
      var players := dealt.value;
      DealtTable(d, playerCount);
      var startingPlayerIndex := FindIndex(players, IsStartingPlayer);
      Begin(players, if startingPlayerIndex >= 0 then startingPlayerIndex else 0);
      r := Ok(GetGameState());
    }

    /** Seats the dealt players, exactly one of them flagged, and gives the turn to the flagged one. */
    method Begin(players: seq<Player>, start: int)
      requires dealer.Valid() && !gameState.gameStarted
      requires 2 <= |players| <= 4 && 0 <= start < |players|
      requires forall k :: 0 <= k < |players| ==> players[k].id == SeatId(k)
      requires forall k :: 0 <= k < |players| ==> (players[k].isStartingPlayer <==> k == start)
      modifies this
      ensures Valid()
      ensures gameState == GameState(players, [], start, true) && startSeat == start
    {
      gameState := GameState(players, [], start, true);
      startSeat := start;
    }

    /** `getGameState`: a copy of the session snapshot; being a value, it cannot be changed through the manager. */
    function GetGameState(): (s: GameState)
      reads this
      ensures s == gameState
    {
      gameState
    }

    /** `getCurrentPlayer`: the player holding the turn, or nothing when no game is in progress. */
    function GetCurrentPlayer(): (r: Option<Player>)
      requires Valid()
      reads this, dealer.deck
      ensures r.None? <==> !gameState.gameStarted
      ensures r.Some? ==> r.value == gameState.players[gameState.currentPlayerIndex]
    {
      if !gameState.gameStarted || |gameState.players| == 0 then None
      else Some(gameState.players[gameState.currentPlayerIndex])
    }

    /** `nextTurn`: throws when no game is in progress; otherwise the next seat, wrapping round, holds the turn. */
    method NextTurn() returns (r: Result<(), GameError>)
      requires Valid()
      modifies this
      ensures Valid()
      ensures !old(gameState.gameStarted) ==> r == Err(GameNotStarted) && gameState == old(gameState)
      ensures old(gameState.gameStarted) ==>
                && r == Ok(())
                && gameState == old(gameState).(currentPlayerIndex :=
                                   Step(old(gameState.currentPlayerIndex), |old(gameState.players)|))
      ensures startSeat == old(startSeat)
    {
      if !gameState.gameStarted {
        return Err(GameNotStarted);
      }
      gameState := gameState.(currentPlayerIndex := (gameState.currentPlayerIndex + 1) % |gameState.players|);
      r := Ok(());
    }

    /** `resetGame`: the deck is rebuilt and reshuffled and the session goes back to not started. */
    method ResetGame()
      requires Valid()
      modifies this, dealer.deck
      ensures Valid()
      ensures gameState == Idle
      ensures multiset(dealer.deck.cards) == multiset(FullDeck())
    {
      dealer.ResetDeck();
      gameState := Idle;
    }

    /** `getPlayerById`: the first seated player with the identifier, if any. */
    function GetPlayerById(playerId: string): (r: Option<Player>)
      reads this
      ensures r.None? <==> forall k :: 0 <= k < |gameState.players| ==> gameState.players[k].id != playerId
      ensures r.Some? ==> r.value in gameState.players && r.value.id == playerId
    {
      Find(gameState.players, (p: Player) => p.id == playerId)
    }

    /** In a game in progress, the identifier of seat `k` finds exactly the player in seat `k`. */
    lemma PlayerByIdFindsSeat(k: nat)
      requires Valid() && gameState.gameStarted && k < |gameState.players|
      ensures GetPlayerById(SeatId(k)) == Some(gameState.players[k])
    {
      var ps := gameState.players;
      forall j | 0 <= j < k ensures ps[j].id != SeatId(k) {
        SeatIdsDistinct(j, k);
      }
      assert FindIndex(ps, (p: Player) => p.id == SeatId(k)) == k;
    }

    /** `getStartingPlayer`: the flagged player, or nothing. */
    function GetStartingPlayer(): (r: Option<Player>)
      requires Valid()
      reads this, dealer.deck
      ensures !gameState.gameStarted ==> r == None
      ensures gameState.gameStarted ==> r == Some(gameState.players[startSeat])
    {
      var ps := gameState.players;
      assert gameState.gameStarted ==>
        forall k :: 0 <= k < startSeat ==> !ps[k].isStartingPlayer;
      Find(ps, IsStartingPlayer)
    }
  }
}
