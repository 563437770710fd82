/**
 * The backend's tables: one record type per table, one map from document
 * id to record per table, and the index scans the mutations run. Ids are
 * handed out from one counter, so a smaller id was created earlier, and a
 * scan of an index on equal keys lists documents in creation order.
 */
module Store {
  import opened Js

  type Id = nat

  datatype GameStatus = Waiting | Active | Completed

  datatype Settings = Settings(initialChips: int, blindInterval: int, smallBlind: int, bigBlind: int)

  /** A row of `games`; the optional `completedAt` and `winner`, which nothing here sets, are not kept. */
  datatype GameDoc = GameDoc(name: string, status: GameStatus, maxPlayers: int, currentPlayers: int,
                             createdBy: string, createdAt: int, startedAt: Option<int>,
                             settings: Settings)

  datatype PlayerStatus = Active | Folded | AllIn | Out

  /** A row of `players`; the optional dealt `cards`, which nothing here sets, are not kept. */
  datatype PlayerDoc = PlayerDoc(gameId: Id, userId: string, name: string, chips: int, position: int,
                                 status: PlayerStatus, currentBet: int, totalBet: int,
                                 isDealer: bool, isCurrentTurn: bool, joinedAt: int)

  datatype Phase = PreFlop | Flop | Turn | River | Showdown

  /** A card as the schema stores it. */
  datatype CardDoc = CardDoc(suit: string, rank: string, value: int)

  /** A row of `rounds`; the optional `completedAt`, `winner` and `winningHand` are not kept. */
  datatype RoundDoc = RoundDoc(gameId: Id, roundNumber: int, pot: int, communityCards: seq<CardDoc>,
                               currentBet: int, phase: Phase, startedAt: int)

  datatype ActionKind = Bet | Call | Raise | Fold | Check | AllIn

  /** A row of `actions`. */
  datatype ActionDoc = ActionDoc(gameId: Id, roundId: Id, playerId: Id, action: ActionKind,
                                 amount: Option<int>, timestamp: int)

  /** The `type` of a chat message. */
  datatype ChatKind = Message | System | Action

  /** A row of `chat`. */
  datatype ChatDoc = ChatDoc(gameId: Id, userId: string, userName: string, message: string,
                             timestamp: int, kind: ChatKind)

  datatype Stats = Stats(gamesPlayed: int, gamesWon: int, totalChipsWon: int, totalChipsLost: int,
                         biggestPot: int, bestHand: Option<string>)

  /** A row of `users`. */
  datatype UserDoc = UserDoc(externalId: string, name: string, email: Option<string>, avatar: Option<string>,
                             stats: Stats, createdAt: int, lastActiveAt: int)

  /** The errors the mutations throw. */
  datatype Failure =
    | GameNotFound
    | GameAlreadyStarted
    | GameFull
    | AlreadyInGame
    | NotEnoughPlayers
    | PlayerNotInGame
    | PlayerNotFound
    | NotYourTurn
    | RoundNotFound
    | CannotCheck
    | AmountRequired
    | UserNotFound

  /**
   * The ids below `n` of the documents of `m` that satisfy `p`, oldest first:
   * what `withIndex(...).filter(...).collect()` lists.
   */
  function IdsBelow<T>(m: map<Id, T>, n: nat, p: T -> bool): (r: seq<Id>)
    ensures forall i, j :: 0 <= i < j < |r| ==> r[i] < r[j]
    ensures forall id :: id in r <==> id < n && id in m && p(m[id])
  {
    if n == 0 then []
    else
      var older := IdsBelow(m, n - 1, p);
      assert forall k :: 0 <= k < |older| ==> older[k] in older;
      older + (if n - 1 in m && p(m[n - 1]) then [n - 1] else [])
  }

  /** `.first()` of a scan: the oldest document of `m` with an id below `n` that satisfies `p`, if any. */
  function Oldest<T>(m: map<Id, T>, n: nat, p: T -> bool): (r: Option<Id>)
    ensures r.None? <==> forall id :: id in m && id < n ==> !p(m[id])
    ensures r.Some? ==> r.value in m && r.value < n && p(m[r.value])
    ensures r.Some? ==> forall id :: id in m && id < r.value ==> !p(m[id])
  {
    var ids := IdsBelow(m, n, p);
    if |ids| == 0 then None
    else
      assert ids[0] in ids;
      assert forall id :: id in ids ==> id >= ids[0] by {
        forall id | id in ids ensures id >= ids[0] {
          var k :| 0 <= k < |ids| && ids[k] == id;
        }
      }
      Some(ids[0])
  }

  /** The documents of the listed ids, with their ids. */
  function Rows<T>(m: map<Id, T>, ids: seq<Id>): (r: seq<(Id, T)>)
    requires forall id :: id in ids ==> id in m
    ensures |r| == |ids|
    ensures forall k :: 0 <= k < |ids| ==> r[k] == (ids[k], m[ids[k]])
  {
    seq(|ids|, k requires 0 <= k < |ids| => (ids[k], m[ids[k]]))
  }

  /**
   * `.collect()` of a scan: the documents of `m` with ids below `n` that
   * satisfy `p`, each with its id, oldest first.
   */
  function Collect<T>(m: map<Id, T>, n: nat, p: T -> bool): (r: seq<(Id, T)>)
    ensures forall i, j :: 0 <= i < j < |r| ==> r[i].0 < r[j].0
    ensures forall k :: 0 <= k < |r| ==> r[k].0 in m && m[r[k].0] == r[k].1 && r[k].0 < n && p(r[k].1)
    ensures forall id :: id in m && id < n && p(m[id]) ==> (id, m[id]) in r
  {
    var ids := IdsBelow(m, n, p);
    var r := Rows(m, ids);
    assert forall k :: 0 <= k < |ids| ==> ids[k] in ids;
    forall id | id in m && id < n && p(m[id]) ensures (id, m[id]) in r {
      var k :| 0 <= k < |ids| && ids[k] == id;
      assert r[k] == (id, m[id]);
    }
    r
  }

  /** No table and not the id counter changed between the two states: a thrown mutation. */
  twostate predicate Untouched(db: Db)
    reads db
  {
    && db.games == old(db.games) && db.players == old(db.players) && db.rounds == old(db.rounds)
    && db.actions == old(db.actions) && db.chat == old(db.chat) && db.users == old(db.users)
    && db.nextId == old(db.nextId)
  }

  /** `.collect()` of a whole table: every document with an id below `n`, with its id, oldest first. */
  function All<T>(m: map<Id, T>, n: nat): (r: seq<(Id, T)>)
    ensures forall i, j :: 0 <= i < j < |r| ==> r[i].0 < r[j].0
    ensures forall row :: row in r ==> row.0 in m && m[row.0] == row.1
    ensures forall id :: id in m && id < n ==> (id, m[id]) in r
  {
    var r := Collect(m, n, (x: T) => true);
    assert forall k :: 0 <= k < |r| ==> r[k] in r;
    r
  }

  /** The ids a listing holds. */
  ghost function IdsOf<T>(r: seq<(Id, T)>): set<Id>
  {
    set k | 0 <= k < |r| :: r[k].0
  }

  /** One more entry of a listing adds its id. */
  lemma IdsOfSnoc<T>(r: seq<(Id, T)>, i: nat)
    requires i < |r|
    ensures IdsOf(r[..i + 1]) == IdsOf(r[..i]) + {r[i].0}
  {
    var longer, shorter := r[..i + 1], r[..i];
    forall id | id in IdsOf(longer) ensures id in IdsOf(shorter) + {r[i].0} {
      var k :| 0 <= k < |longer| && longer[k].0 == id;
      if k < i {
        assert shorter[k].0 == id;
      }
    }
    forall id | id in IdsOf(shorter) + {r[i].0} ensures id in IdsOf(longer) {
      if id == r[i].0 {
        assert longer[i].0 == id;
      } else {
        var k :| 0 <= k < |shorter| && shorter[k].0 == id;
        assert longer[k].0 == id;
      }
    }
  }

  /** A listing with strictly increasing ids names as many documents as it has entries. */
  lemma {:induction false} IncreasingIdsCount<T>(r: seq<(Id, T)>)
    requires forall i, j :: 0 <= i < j < |r| ==> r[i].0 < r[j].0
    ensures |IdsOf(r)| == |r|
  {
    if |r| > 0 {
      var init := r[..|r| - 1];
      IncreasingIdsCount(init);
      assert IdsOf(r) == IdsOf(init) + {r[|r| - 1].0};
      assert r[|r| - 1].0 !in IdsOf(init);
    }
  }

  /** The listing of a whole table names exactly the documents of the table. */
  lemma AllIds<T>(m: map<Id, T>, n: nat)
    requires forall id :: id in m ==> id < n
    ensures IdsOf(All(m, n)) == m.Keys
  {
    var r := All(m, n);
    forall id | id in IdsOf(r) ensures id in m.Keys {
      var k :| 0 <= k < |r| && r[k].0 == id;
      assert r[k] in r;
    }
    forall id | id in m.Keys ensures id in IdsOf(r) {
      assert (id, m[id]) in r;
      var k :| 0 <= k < |r| && r[k] == (id, m[id]);
    }
  }

  /** The listing of a whole table names every document once: it has as many entries as the table. */
  lemma AllCountsTable<T>(m: map<Id, T>, n: nat)
    requires forall id :: id in m ==> id < n
    ensures |All(m, n)| == |m|
  {
    AllIds(m, n);
    IncreasingIdsCount(All(m, n));
    assert |m| == |m.Keys|;
  }

  /** The database: one map per table and the counter that hands out fresh ids. */
  class Db {
    var games: map<Id, GameDoc>
    var players: map<Id, PlayerDoc>
    var rounds: map<Id, RoundDoc>
    var actions: map<Id, ActionDoc>
    var chat: map<Id, ChatDoc>
    var users: map<Id, UserDoc>
    var nextId: Id

    /** Every stored document has an id handed out earlier. */
    ghost predicate Valid()
      reads this
    {
      && (forall id :: id in games ==> id < nextId)
      && (forall id :: id in players ==> id < nextId)
      && (forall id :: id in rounds ==> id < nextId)
      && (forall id :: id in actions ==> id < nextId)
      && (forall id :: id in chat ==> id < nextId)
      && (forall id :: id in users ==> id < nextId)
    }

    /** An empty database. */
    constructor ()
      ensures Valid()
      ensures games == map[] && players == map[] && rounds == map[]
      ensures actions == map[] && chat == map[] && users == map[]
    {
      games, players, rounds, actions, chat, users := map[], map[], map[], map[], map[], map[];
      nextId := 0;
    }

    /** Hands out an id no document has. */
    method FreshId() returns (id: Id)
      requires Valid()
      modifies this
      ensures id == old(nextId) && nextId == id + 1
      ensures games == old(games) && players == old(players) && rounds == old(rounds)
      ensures actions == old(actions) && chat == old(chat) && users == old(users)
      ensures Valid()
      ensures id !in games && id !in players && id !in rounds
      ensures id !in actions && id !in chat && id !in users
    {
      id := nextId;
      nextId := nextId + 1;
    }
  }
}
