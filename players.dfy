/**
 * The betting engine of the backend: one player action settles a stake
 * against the player's chips and the round's bet, moves the stake into the
 * pot, logs the action and passes the turn to the next active seat.
 */
module Players {
  import opened Js
  import opened Store

  /**
   * What the `switch` of `playerAction` settles: the stake taken from the
   * player, the chips left, the new status, and the new round bet when the
   * round's `currentBet` is patched.
   */
  datatype Settlement = Settlement(stake: int, chips: int, status: PlayerStatus, roundBet: Option<int>)

  /** The stake of an amount capped at the chips the player holds. */
  function Capped(amount: int, chips: int): int
  {
    if amount > chips then chips else amount
  }

  /**
   * The `switch` of `playerAction` for a player `p` facing the round bet
   * `roundBet`: a fold stakes nothing; a check stakes nothing and throws when
   * the player is behind; a call stakes what the player owes; a bet or raise
   * stakes the given amount (which must be present and non-zero) and sets the
   * round bet; an all-in stakes every chip. A stake above the chips is capped
   * and the player goes all-in.
   */
  function Settle(action: ActionKind, amount: Option<int>, p: PlayerDoc, roundBet: int): (r: Result<Settlement, Failure>)
    ensures r.Err? <==> (action == Check && roundBet > p.currentBet) ||
                        ((action == Bet || action == Raise) && (amount.None? || amount.value == 0))
    ensures r.Err? ==> r.error == if action == Check then CannotCheck else AmountRequired
    ensures r.Ok? ==> r.value.chips == p.chips - r.value.stake
    ensures r.Ok? && p.chips >= 0 ==> r.value.chips >= 0
  {
    match action
    case Fold => Ok(Settlement(0, p.chips, Folded, None))
    case Check =>
      if roundBet > p.currentBet then Err(CannotCheck)
      else Ok(Settlement(0, p.chips, p.status, None))
    case Call =>
      var owed := roundBet - p.currentBet;
      var stake := Capped(owed, p.chips);
      Ok(Settlement(stake, p.chips - stake, if owed > p.chips then PlayerStatus.AllIn else p.status, None))
    case Bet | Raise =>
      if amount.None? || amount.value == 0 then Err(AmountRequired)
      else
        var stake := Capped(amount.value, p.chips);
        Ok(Settlement(stake, p.chips - stake, if amount.value > p.chips then PlayerStatus.AllIn else p.status,
                      Some(p.currentBet + stake)))
    case AllIn =>
      var total := p.currentBet + p.chips;
      Ok(Settlement(p.chips, 0, PlayerStatus.AllIn, if total > roundBet then Some(total) else None))
  }

  /**
   * The acting player's record after the action: the settled chips and
   * status, both bets grown by the stake, the turn given up, and nothing
   * else changed.
   */
  function Acted(p: PlayerDoc, s: Settlement): (q: PlayerDoc)
    ensures q.chips == s.chips && q.status == s.status && !q.isCurrentTurn
    ensures q.currentBet - p.currentBet == s.stake && q.totalBet - p.totalBet == s.stake
    ensures q.(chips := p.chips, currentBet := p.currentBet, totalBet := p.totalBet,
               status := p.status, isCurrentTurn := p.isCurrentTurn) == p
  {
    p.(chips := s.chips, currentBet := p.currentBet + s.stake, totalBet := p.totalBet + s.stake,
       status := s.status, isCurrentTurn := false)
  }

  /**
   * The round's record after the action: the pot grows by exactly the stake
   * when it is positive and is otherwise unchanged; the round bet is the
   * settled one when there is one and is otherwise kept; nothing else changes.
   */
  function Staked(round: RoundDoc, s: Settlement): (r: RoundDoc)
    ensures s.stake > 0 ==> r.pot == round.pot + s.stake
    ensures s.stake <= 0 ==> r.pot == round.pot
    ensures s.roundBet.Some? ==> r.currentBet == s.roundBet.value
    ensures s.roundBet.None? ==> r.currentBet == round.currentBet
    ensures r.(pot := round.pot, currentBet := round.currentBet) == round
  {
    var bet := if s.roundBet.Some? then s.roundBet.value else round.currentBet;
    round.(currentBet := bet, pot := if s.stake > 0 then round.pot + s.stake else round.pot)
  }

  /** The log entry of the action: the amount is recorded exactly for a positive stake, and it is then the stake. */
  function Logged(gameId: Id, roundId: Id, playerId: Id, action: ActionKind, s: Settlement, now: int): (a: ActionDoc)
    ensures a.gameId == gameId && a.roundId == roundId && a.playerId == playerId && a.action == action && a.timestamp == now
    ensures a.amount.Some? <==> s.stake > 0
    ensures a.amount.Some? ==> a.amount.value == s.stake
  {
    ActionDoc(gameId, roundId, playerId, action, if s.stake > 0 then Some(s.stake) else None, now)
  }

  /** The active players of the game, oldest first. */
  function ActivePlayers(ps: map<Id, PlayerDoc>, n: nat, gameId: Id): (r: seq<Id>)
    ensures forall i, j :: 0 <= i < j < |r| ==> r[i] < r[j]
    ensures forall id: Id :: id in r <==> id < n && ActiveIn(ps, gameId, id)
  {
    IdsBelow(ps, n, (q: PlayerDoc) => q.gameId == gameId && q.status == PlayerStatus.Active)
  }

  /** `id` is an active player of the game. */
  predicate ActiveIn(ps: map<Id, PlayerDoc>, gameId: Id, id: Id)
  {
    id in ps && ps[id].gameId == gameId && ps[id].status == PlayerStatus.Active
  }

  /** `id` is a player seated at `position`. */
  predicate SeatedAt(ps: map<Id, PlayerDoc>, position: int, id: Id)
  {
    id in ps && ps[id].position == position
  }

  /**
   * The player who gets the turn after the seat at `position`: the first
   * active player of the game seated at `(position + 1) % count`, where
   * `count` is the number of active players; nobody when there is none.
   */
  function NextHolder(ps: map<Id, PlayerDoc>, n: nat, gameId: Id, position: int): (r: Option<Id>)
    ensures r.Some? ==> r.value in ps
  {
    var active := ActivePlayers(ps, n, gameId);
    if |active| == 0 then None
    else
      var next := Rem(position + 1, |active|);
      var k := FindIndex(active, (id: Id) => SeatedAt(ps, next, id));
      if k < 0 then None
      else
        assert active[k] in active;
        Some(active[k])
  }

  /** The players after the turn has passed from the seat at `position`. */
  function PassTurn(ps: map<Id, PlayerDoc>, n: nat, gameId: Id, position: int): (qs: map<Id, PlayerDoc>)
    ensures qs.Keys == ps.Keys
  {
    match NextHolder(ps, n, gameId, position)
    case None => ps
    case Some(id) => ps[id := ps[id].(isCurrentTurn := true)]
  }

  /** `updatePlayerChips`'s patch: the chips are set, and a player left without chips is out. */
  function Rechipped(p: PlayerDoc, chips: int): (q: PlayerDoc)
    ensures q.chips == chips
    ensures chips <= 0 ==> q.status == Out
    ensures chips > 0 ==> q.status == p.status
    ensures q.(chips := p.chips, status := p.status) == p
  {
    p.(chips := chips, status := if chips <= 0 then Out else p.status)
  }

  /**
   * Whatever the action, the chips the player gives up are exactly the
   * growth of both bets: chips plus total bet is conserved, chips never go
   * negative, and the player no longer holds the turn.
   */
  lemma SettleConservesChips(action: ActionKind, amount: Option<int>, p: PlayerDoc, roundBet: int)
    requires Settle(action, amount, p, roundBet).Ok?
    ensures var q := Acted(p, Settle(action, amount, p, roundBet).value);
            && q.chips + q.totalBet == p.chips + p.totalBet
            && q.currentBet - p.currentBet == q.totalBet - p.totalBet
            && (p.chips >= 0 ==> q.chips >= 0)
            && !q.isCurrentTurn
  {
  }

  /** A fold stakes nothing and folds the player. */
  lemma SettleFold(amount: Option<int>, p: PlayerDoc, roundBet: int)
    ensures Settle(Fold, amount, p, roundBet) == Ok(Settlement(0, p.chips, Folded, None))
  {
  }

  /** A check throws exactly when the round bet is above the player's bet, and otherwise moves nothing. */
  lemma SettleCheck(amount: Option<int>, p: PlayerDoc, roundBet: int)
    ensures Settle(Check, amount, p, roundBet).Err? <==> roundBet > p.currentBet
    ensures roundBet <= p.currentBet ==>
              Settle(Check, amount, p, roundBet) == Ok(Settlement(0, p.chips, p.status, None))
  {
  }

  /**
   * A call stakes what the player owes, capped at the chips; the player goes
   * all-in exactly when the cap applies. The round bet is left alone.
   */
  lemma SettleCall(amount: Option<int>, p: PlayerDoc, roundBet: int)
    ensures var s := Settle(Call, amount, p, roundBet).value;
            var owed := roundBet - p.currentBet;
            && (owed <= p.chips ==> s.stake == owed && s.status == p.status)
            && (owed > p.chips ==> s.stake == p.chips && s.chips == 0 && s.status == PlayerStatus.AllIn)
            && s.roundBet.None?
  {
  }

  /**
   * A bet or raise without an amount, or with an amount of 0, throws;
   * otherwise it stakes the amount capped at the chips, goes all-in when
   * capped, and sets the round bet to the player's new bet whether or not
   * that is above the old one.
   */
  lemma SettleBetOrRaise(action: ActionKind, amount: Option<int>, p: PlayerDoc, roundBet: int)
    requires action == Bet || action == Raise
    ensures Settle(action, amount, p, roundBet) == Err(AmountRequired) <==> amount.None? || amount.value == 0
    ensures amount.Some? && amount.value != 0 ==>
              var s := Settle(action, amount, p, roundBet).value;
              && s.stake == (if amount.value > p.chips then p.chips else amount.value)
              && (s.status == PlayerStatus.AllIn <==> amount.value > p.chips || p.status == PlayerStatus.AllIn)
              && s.roundBet == Some(p.currentBet + s.stake)
  {
  }

  /** An all-in stakes every chip and raises the round bet only when the player's new bet is above it. */
  lemma SettleAllIn(amount: Option<int>, p: PlayerDoc, roundBet: int)
    ensures var s := Settle(ActionKind.AllIn, amount, p, roundBet).value;
            && s.stake == p.chips && s.chips == 0 && s.status == PlayerStatus.AllIn
            && (s.roundBet.Some? <==> p.currentBet + p.chips > roundBet)
            && (s.roundBet.Some? ==> s.roundBet.value == p.currentBet + p.chips)
  {
  }

  /**
   * Calling while the player's bet is above the round bet stakes a negative
   * amount: the player takes chips back, the bets shrink and the pot is
   * left as it was.
   */
  lemma CallAboveRoundBetRefunds(amount: Option<int>, p: PlayerDoc, round: RoundDoc)
    requires p.currentBet > round.currentBet && p.chips >= 0
    ensures var s := Settle(Call, amount, p, round.currentBet).value;
            && s.stake < 0
            && Acted(p, s).chips > p.chips
            && Acted(p, s).currentBet == round.currentBet
            && Staked(round, s) == round
  {
  }

  /**
   * The turn goes to the oldest active player of the game seated at the
   * position after the actor's, counted modulo the number of active
   * players.
   */
  lemma {:induction false} NextHolderSeat(ps: map<Id, PlayerDoc>, n: nat, gameId: Id, position: int)
    requires NextHolder(ps, n, gameId, position).Some?
    ensures var h := NextHolder(ps, n, gameId, position).value;
            var count := |ActivePlayers(ps, n, gameId)|;
            && count > 0 && h < n
            && ActiveIn(ps, gameId, h)
            && SeatedAt(ps, Rem(position + 1, count), h)
            && forall id: Id :: id < h && ActiveIn(ps, gameId, id) ==> !SeatedAt(ps, Rem(position + 1, count), id)
  {
    var active := ActivePlayers(ps, n, gameId);
    var next := Rem(position + 1, |active|);
    var k := FindIndex(active, (id: Id) => SeatedAt(ps, next, id));
    assert active[k] in active;
    forall id: Id | id < active[k] && ActiveIn(ps, gameId, id) ensures !SeatedAt(ps, next, id) {
      assert id in active;
      var j :| 0 <= j < |active| && active[j] == id;
      assert j < k;
    }
  }

  /** Nobody gets the turn exactly when no active player of the game sits at the position after the actor's. */
  lemma {:induction false} NextHolderNone(ps: map<Id, PlayerDoc>, n: nat, gameId: Id, position: int)
    ensures var count := |ActivePlayers(ps, n, gameId)|;
            NextHolder(ps, n, gameId, position).None? <==>
              count == 0 ||
              forall id: Id :: id < n && ActiveIn(ps, gameId, id) ==> !SeatedAt(ps, Rem(position + 1, count), id)
  {
    var active := ActivePlayers(ps, n, gameId);
    if |active| > 0 {
      var next := Rem(position + 1, |active|);
      var k := FindIndex(active, (id: Id) => SeatedAt(ps, next, id));
      if k < 0 {
        forall id: Id | id < n && ActiveIn(ps, gameId, id) ensures !SeatedAt(ps, next, id) {
          assert id in active;
          var j :| 0 <= j < |active| && active[j] == id;
        }
      } else {
        assert active[k] in active;
      }
    }
  }

  /** Passing the turn changes at most the turn flag of the player who gets it. */
  lemma PassTurnOnlyFlags(ps: map<Id, PlayerDoc>, n: nat, gameId: Id, position: int)
    ensures var r := NextHolder(ps, n, gameId, position);
            var qs := PassTurn(ps, n, gameId, position);
            && qs.Keys == ps.Keys
            && (forall id :: id in ps ==> qs[id].(isCurrentTurn := ps[id].isCurrentTurn) == ps[id])
            && (forall id :: id in ps ==> (qs[id].isCurrentTurn <==> ps[id].isCurrentTurn || r == Some(id)))
  {
    if NextHolder(ps, n, gameId, position).Some? {
      NextHolderSeat(ps, n, gameId, position);
    }
  }

  /**
   * `playerAction`: throws, changing nothing, when the player is missing,
   * when it is not their turn, when the round is missing, or when the action
   * is refused; otherwise patches the round and the player, logs the action
   * and passes the turn, returning the id of the log entry.
   */
  method PlayerAction(db: Db, gameId: Id, roundId: Id, playerId: Id, action: ActionKind,
                      amount: Option<int>, now: int) returns (r: Result<Id, Failure>)
    requires db.Valid()
    modifies db
    ensures db.Valid()
    ensures playerId !in old(db.players) ==> r == Err(PlayerNotFound) && Untouched(db)
    ensures playerId in old(db.players) && !old(db.players)[playerId].isCurrentTurn ==>
              r == Err(NotYourTurn) && Untouched(db)
    ensures playerId in old(db.players) && old(db.players)[playerId].isCurrentTurn &&
            roundId !in old(db.rounds) ==>
              r == Err(RoundNotFound) && Untouched(db)
    ensures playerId in old(db.players) && old(db.players)[playerId].isCurrentTurn &&
            roundId in old(db.rounds) ==>
              var p := old(db.players)[playerId];
              var round := old(db.rounds)[roundId];
              var settled := Settle(action, amount, p, round.currentBet);
              && (settled.Err? ==> r == Err(settled.error) && Untouched(db))
              && (settled.Ok? ==>
                    var s := settled.value;
                    && r == Ok(old(db.nextId))
                    && db.nextId == old(db.nextId) + 1
                    && db.rounds == old(db.rounds)[roundId := Staked(round, s)]
                    && db.players == PassTurn(old(db.players)[playerId := Acted(p, s)], db.nextId, gameId, p.position)
                    && db.actions == old(db.actions)[old(db.nextId) := Logged(gameId, roundId, playerId, action, s, now)]
                    && db.games == old(db.games) && db.chat == old(db.chat) && db.users == old(db.users))
  {
    if playerId !in db.players {
      return Err(PlayerNotFound);
    }
    var player := db.players[playerId];
    if !player.isCurrentTurn {
      return Err(NotYourTurn);
    }
    if roundId !in db.rounds {
      return Err(RoundNotFound);
    }
    var round := db.rounds[roundId];
    var settled := Settle(action, amount, player, round.currentBet);
    if settled.Err? {
      return Err(settled.error);
    }
    var actionId := Apply(db, gameId, roundId, playerId, action, settled.value, now);
    return Ok(actionId);
  }

  /** The writes of a settled `playerAction`: round and player patched, action logged, turn passed. */
  method Apply(db: Db, gameId: Id, roundId: Id, playerId: Id, action: ActionKind, s: Settlement, now: int)
    returns (actionId: Id)
    requires db.Valid() && playerId in db.players && roundId in db.rounds
    modifies db
    ensures db.Valid()
    ensures var p := old(db.players)[playerId];
            && actionId == old(db.nextId)
            && db.nextId == old(db.nextId) + 1
            && db.rounds == old(db.rounds)[roundId := Staked(old(db.rounds)[roundId], s)]
            && db.players == PassTurn(old(db.players)[playerId := Acted(p, s)], db.nextId, gameId, p.position)
            && db.actions == old(db.actions)[actionId := Logged(gameId, roundId, playerId, action, s, now)]
            && db.games == old(db.games) && db.chat == old(db.chat) && db.users == old(db.users)
  {
    var player := db.players[playerId];
    var round := db.rounds[roundId];
    var rounds := db.rounds;
    if s.roundBet.Some? {
      rounds := rounds[roundId := round.(currentBet := s.roundBet.value)];
    }
    var players := db.players[playerId := Acted(player, s)];
    if s.stake > 0 {
      rounds := rounds[roundId := rounds[roundId].(pot := round.pot + s.stake)];
    }
    assert rounds == db.rounds[roundId := Staked(round, s)];
    actionId := db.FreshId();
    db.rounds := rounds;
    db.actions := db.actions[actionId := Logged(gameId, roundId, playerId, action, s, now)];
    players := HandOnTurn(players, db.nextId, gameId, player.position);
    db.players := players;
  }

  /** The last step of `playerAction`: the next active seat, if someone sits there, gets the turn. */
  method HandOnTurn(ps: map<Id, PlayerDoc>, n: nat, gameId: Id, position: int) returns (qs: map<Id, PlayerDoc>)
    ensures qs == PassTurn(ps, n, gameId, position)
  {
    qs := ps;
    var nextPlayer := NextHolder(ps, n, gameId, position);
    if nextPlayer.Some? {
      qs := qs[nextPlayer.value := qs[nextPlayer.value].(isCurrentTurn := true)];
    }
  }

  /** `updatePlayerChips`: throws, changing nothing, for a missing player; otherwise applies `Rechipped`. */
  method UpdatePlayerChips(db: Db, playerId: Id, chips: int) returns (r: Result<(), Failure>)
    requires db.Valid()
    modifies db
    ensures db.Valid()
    ensures playerId !in old(db.players) ==> r == Err(PlayerNotFound) && Untouched(db)
    ensures playerId in old(db.players) ==>
              && r == Ok(())
              && db.players == old(db.players)[playerId := Rechipped(old(db.players)[playerId], chips)]
              && db.games == old(db.games) && db.rounds == old(db.rounds) && db.actions == old(db.actions)
              && db.chat == old(db.chat) && db.users == old(db.users) && db.nextId == old(db.nextId)
  {
    if playerId !in db.players {
      return Err(PlayerNotFound);
    }
    db.players := db.players[playerId := Rechipped(db.players[playerId], chips)];
    return Ok(());
  }
}
