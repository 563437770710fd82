/**
 * The table lifecycle of the backend: games are created waiting, players
 * join them (the first one deals) until the second join makes the game
 * active, a waiting game with two players can be started with a first
 * round, and players leave by being marked out.
 */
module Games {
  import opened Js
  import opened Store

  /** Every waiting game seats fewer than two players, and no game counts fewer than none. */
  ghost predicate Lifecycle(games: map<Id, GameDoc>)
  {
    forall id :: id in games ==>
      games[id].currentPlayers >= 0 && (games[id].status == Waiting ==> games[id].currentPlayers < 2)
  }

  /** The record `createGame` inserts: waiting, with nobody seated yet. */
  function NewGame(name: string, maxPlayers: int, createdBy: string, settings: Settings, now: int): (g: GameDoc)
    ensures g.status == Waiting && g.currentPlayers == 0 && g.startedAt.None?
    ensures g.name == name && g.maxPlayers == maxPlayers && g.createdBy == createdBy
    ensures g.settings == settings && g.createdAt == now
  {
    GameDoc(name, Waiting, maxPlayers, 0, createdBy, now, None, settings)
  }

  /** The oldest record of the user in the game, whatever its status. */
  function Membership(ps: map<Id, PlayerDoc>, n: nat, gameId: Id, userId: string): (r: Option<Id>)
    ensures r.None? <==> forall id :: id in ps && id < n ==> !(ps[id].gameId == gameId && ps[id].userId == userId)
    ensures r.Some? ==> r.value in ps && r.value < n && ps[r.value].gameId == gameId && ps[r.value].userId == userId
    ensures r.Some? ==> forall id :: id in ps && id < r.value ==> !(ps[id].gameId == gameId && ps[id].userId == userId)
  {
    Oldest(ps, n, (p: PlayerDoc) => p.gameId == gameId && p.userId == userId)
  }

  /**
   * The record of a player joining `g`: the next position, the game's
   * starting chips, an active status, no bets, the dealer button exactly
   * for the first player, and not the turn.
   */
  function Joined(g: GameDoc, gameId: Id, userId: string, userName: string, now: int): (p: PlayerDoc)
    ensures p.gameId == gameId && p.userId == userId && p.name == userName && p.joinedAt == now
    ensures p.position == g.currentPlayers
    ensures p.chips == g.settings.initialChips
    ensures p.status == PlayerStatus.Active
    ensures p.currentBet == 0 && p.totalBet == 0
    ensures p.isDealer <==> g.currentPlayers == 0
    ensures !p.isCurrentTurn
  {
    PlayerDoc(gameId, userId, userName, g.settings.initialChips, g.currentPlayers, PlayerStatus.Active,
              0, 0, g.currentPlayers == 0, false, now)
  }

  /** The game after a join: one more player, and active (with a start time) from the second player on. */
  function AfterJoin(g: GameDoc, now: int): (h: GameDoc)
    ensures h.currentPlayers == g.currentPlayers + 1
    ensures g.currentPlayers + 1 >= 2 ==> h.status == GameStatus.Active && h.startedAt == Some(now)
    ensures g.currentPlayers + 1 < 2 ==> h.status == g.status && h.startedAt == g.startedAt
    ensures h.(currentPlayers := g.currentPlayers, status := g.status, startedAt := g.startedAt) == g
  {
    var counted := g.(currentPlayers := g.currentPlayers + 1);
    if g.currentPlayers + 1 >= 2 then counted.(status := GameStatus.Active, startedAt := Some(now))
    else counted
  }

  /** The first round of a started game: number 1, empty pot, the big blind to match, before the flop. */
  function FirstRound(gameId: Id, g: GameDoc, now: int): (round: RoundDoc)
    ensures round.gameId == gameId && round.roundNumber == 1 && round.startedAt == now
    ensures round.pot == 0 && round.communityCards == []
    ensures round.currentBet == g.settings.bigBlind && round.phase == PreFlop
  {
    RoundDoc(gameId, 1, 0, [], g.settings.bigBlind, PreFlop, now)
  }

  /**
   * The game after a player leaves: one fewer player, but never fewer than
   * none, and the status kept, so a waiting game stays under two players.
   */
  function AfterLeave(g: GameDoc): (h: GameDoc)
    ensures h.currentPlayers >= 0
    ensures g.currentPlayers >= 1 ==> h.currentPlayers == g.currentPlayers - 1
    ensures g.currentPlayers < 1 ==> h.currentPlayers == 0
    ensures h.(currentPlayers := g.currentPlayers) == g
  {
    g.(currentPlayers := if g.currentPlayers - 1 > 0 then g.currentPlayers - 1 else 0)
  }

  /**
   * A join to a waiting game counts one more player, and leaves it waiting
   * only while fewer than two are seated: the lifecycle invariant holds
   * afterwards.
   */
  lemma AfterJoinLifecycle(g: GameDoc, now: int)
    requires g.status == Waiting && 0 <= g.currentPlayers < 2
    ensures AfterJoin(g, now).currentPlayers == g.currentPlayers + 1
    ensures AfterJoin(g, now).status == Waiting <==> g.currentPlayers + 1 < 2
    ensures AfterJoin(g, now).status == GameStatus.Active <==> g.currentPlayers + 1 >= 2
    ensures AfterJoin(g, now).status == Waiting ==> AfterJoin(g, now).currentPlayers < 2
  {
  }

  /** `createGame`: inserts a waiting game with nobody seated and returns its id. */
  method CreateGame(db: Db, name: string, maxPlayers: int, createdBy: string, settings: Settings, now: int)
    returns (gameId: Id)
    requires db.Valid()
    modifies db
    ensures db.Valid()
    ensures gameId == old(db.nextId) && gameId !in old(db.games) && db.nextId == old(db.nextId) + 1
    ensures db.games == old(db.games)[gameId := NewGame(name, maxPlayers, createdBy, settings, now)]
    ensures db.games[gameId].status == Waiting && db.games[gameId].currentPlayers == 0
    ensures db.games[gameId].settings == settings && db.games[gameId].maxPlayers == maxPlayers
    ensures db.players == old(db.players) && db.rounds == old(db.rounds) && db.actions == old(db.actions)
    ensures db.chat == old(db.chat) && db.users == old(db.users)
    ensures Lifecycle(old(db.games)) ==> Lifecycle(db.games)
  {
    gameId := db.FreshId();
    db.games := db.games[gameId := NewGame(name, maxPlayers, createdBy, settings, now)];
  }

  /** `listGames`: the games with the given status, or all games, oldest first. */
  function ListGames(db: Db, status: Option<GameStatus>): (r: seq<(Id, GameDoc)>)
    requires db.Valid()
    reads db
    ensures forall k :: 0 <= k < |r| ==>
              r[k].0 in db.games && db.games[r[k].0] == r[k].1 && (status.None? || r[k].1.status == status.value)
    ensures forall id :: id in db.games && (status.None? || db.games[id].status == status.value) ==>
              (id, db.games[id]) in r
    ensures forall i, j :: 0 <= i < j < |r| ==> r[i].0 < r[j].0
  {
    if status.Some? then Collect(db.games, db.nextId, (g: GameDoc) => g.status == status.value)
    else Collect(db.games, db.nextId, (g: GameDoc) => true)
  }

  /**
   * `joinGame`: throws, changing nothing, when the game is missing, not
   * waiting, full, or already joined by the user; otherwise seats the user
   * and counts them, returning the new player's id.
   */
  method JoinGame(db: Db, gameId: Id, userId: string, userName: string, now: int) returns (r: Result<Id, Failure>)
    requires db.Valid()
    modifies db
    ensures db.Valid()
    ensures gameId !in old(db.games) ==> r == Err(GameNotFound) && Untouched(db)
    ensures gameId in old(db.games) ==>
              var g := old(db.games)[gameId];
              var member := Membership(old(db.players), old(db.nextId), gameId, userId);
              && (g.status != Waiting ==> r == Err(GameAlreadyStarted) && Untouched(db))
              && (g.status == Waiting && g.currentPlayers >= g.maxPlayers ==> r == Err(GameFull) && Untouched(db))
              && (g.status == Waiting && g.currentPlayers < g.maxPlayers && member.Some? ==>
                    r == Err(AlreadyInGame) && Untouched(db))
              && (g.status == Waiting && g.currentPlayers < g.maxPlayers && member.None? ==>
                    && r == Ok(old(db.nextId))
                    && db.nextId == old(db.nextId) + 1
                    && db.players == old(db.players)[old(db.nextId) := Joined(g, gameId, userId, userName, now)]
                    && db.games == old(db.games)[gameId := AfterJoin(g, now)]
                    && db.rounds == old(db.rounds) && db.actions == old(db.actions)
                    && db.chat == old(db.chat) && db.users == old(db.users))
    ensures Lifecycle(old(db.games)) ==> Lifecycle(db.games)
  {
    if gameId !in db.games {
      return Err(GameNotFound);
    }
    var game := db.games[gameId];
    if game.status != Waiting {
      return Err(GameAlreadyStarted);
    }
    if game.currentPlayers >= game.maxPlayers {
      return Err(GameFull);
    }
    var existingPlayer := Membership(db.players, db.nextId, gameId, userId);
    if existingPlayer.Some? {
      return Err(AlreadyInGame);
    }
    var playerId := SeatPlayer(db, gameId, userId, userName, now);
    return Ok(playerId);
  }

  /** The writes of a `joinGame` that passed its checks: the player is inserted and the game counts them. */
  method SeatPlayer(db: Db, gameId: Id, userId: string, userName: string, now: int) returns (playerId: Id)
    requires db.Valid() && gameId in db.games
    modifies db
    ensures db.Valid()
    ensures var g := old(db.games)[gameId];
            && playerId == old(db.nextId)
            && db.nextId == old(db.nextId) + 1
            && db.players == old(db.players)[playerId := Joined(g, gameId, userId, userName, now)]
            && db.games == old(db.games)[gameId := AfterJoin(g, now)]
            && db.rounds == old(db.rounds) && db.actions == old(db.actions)
            && db.chat == old(db.chat) && db.users == old(db.users)
  {
    var game := db.games[gameId];
    playerId := db.FreshId();
    db.players := db.players[playerId := Joined(game, gameId, userId, userName, now)];
    var patched := game.(currentPlayers := game.currentPlayers + 1);
    if game.currentPlayers + 1 >= 2 {
      patched := patched.(status := GameStatus.Active, startedAt := Some(now));
    }
    db.games := db.games[gameId := patched];
  }

  /**
   * `startGame`: throws, changing nothing, when the game is missing, not
   * waiting, or seats fewer than two players; otherwise makes it active and
   * inserts its first round, returning the round's id. On every table the
   * lifecycle invariant describes, it throws.
   */
  method StartGame(db: Db, gameId: Id, now: int) returns (r: Result<Id, Failure>)
    requires db.Valid()
    modifies db
    ensures db.Valid()
    ensures gameId !in old(db.games) ==> r == Err(GameNotFound) && Untouched(db)
    ensures gameId in old(db.games) ==>
              var g := old(db.games)[gameId];
              && (g.status != Waiting ==> r == Err(GameAlreadyStarted) && Untouched(db))
              && (g.status == Waiting && g.currentPlayers < 2 ==> r == Err(NotEnoughPlayers) && Untouched(db))
              && (g.status == Waiting && g.currentPlayers >= 2 ==>
                    && r == Ok(old(db.nextId))
                    && db.nextId == old(db.nextId) + 1
                    && db.games == old(db.games)[gameId := g.(status := GameStatus.Active, startedAt := Some(now))]
                    && db.rounds == old(db.rounds)[old(db.nextId) := FirstRound(gameId, g, now)]
                    && db.players == old(db.players) && db.actions == old(db.actions)
                    && db.chat == old(db.chat) && db.users == old(db.users))
    ensures Lifecycle(old(db.games)) ==> r.Err? && Untouched(db)
  {
    if gameId !in db.games {
      return Err(GameNotFound);
    }
    var game := db.games[gameId];
    if game.status != Waiting {
      return Err(GameAlreadyStarted);
    }
    if game.currentPlayers < 2 {
      return Err(NotEnoughPlayers);
    }
    db.games := db.games[gameId := game.(status := GameStatus.Active, startedAt := Some(now))];
    var roundId := db.FreshId();
    db.rounds := db.rounds[roundId := FirstRound(gameId, game, now)];
    return Ok(roundId);
  }

  /**
   * `leaveGame`: throws, changing nothing, when the game is missing or the
   * user has no record in it; otherwise marks the user's oldest record out
   * and counts one player fewer, never below none.
   */
  method LeaveGame(db: Db, gameId: Id, userId: string) returns (r: Result<(), Failure>)
    requires db.Valid()
    modifies db
    ensures db.Valid()
    ensures gameId !in old(db.games) ==> r == Err(GameNotFound) && Untouched(db)
    ensures gameId in old(db.games) ==>
              var member := Membership(old(db.players), old(db.nextId), gameId, userId);
              && (member.None? ==> r == Err(PlayerNotInGame) && Untouched(db))
              && (member.Some? ==>
                    && r == Ok(())
                    && db.players == old(db.players)[member.value := old(db.players)[member.value].(status := Out)]
                    && db.games == old(db.games)[gameId := AfterLeave(old(db.games)[gameId])]
                    && db.games[gameId].currentPlayers >= 0
                    && db.rounds == old(db.rounds) && db.actions == old(db.actions)
                    && db.chat == old(db.chat) && db.users == old(db.users) && db.nextId == old(db.nextId))
    ensures Lifecycle(old(db.games)) ==> Lifecycle(db.games)
  {
    if gameId !in db.games {
      return Err(GameNotFound);
    }
    var game := db.games[gameId];
    var player := Membership(db.players, db.nextId, gameId, userId);
    if player.None? {
      return Err(PlayerNotInGame);
    }
    db.players := db.players[player.value := db.players[player.value].(status := Out)];
    db.games := db.games[gameId := game.(currentPlayers := if game.currentPlayers - 1 > 0 then game.currentPlayers - 1 else 0)];
    return Ok(());
  }
}
