/**
 * The chat of a game table: players and the system post messages, the
 * table shows them newest first, and the chat of a game can be cleared.
 */
module Chat {
  import opened Js
  import opened Store

  /** `args.type || "message"`: a message without a kind is a plain message. */
  function KindOrMessage(kind: Option<ChatKind>): (k: ChatKind)
    ensures kind.Some? ==> k == kind.value
    ensures kind.None? ==> k == Message
  {
    if kind.Some? then kind.value else Message
  }

  /** The messages of a game, oldest first: the scan of the `by_game` index. */
  function OfGame(chat: map<Id, ChatDoc>, n: nat, gameId: Id): (r: seq<(Id, ChatDoc)>)
    ensures forall i, j :: 0 <= i < j < |r| ==> r[i].0 < r[j].0
    ensures forall row :: row in r ==> row.0 in chat && chat[row.0] == row.1 && row.1.gameId == gameId
    ensures forall id :: id in chat && id < n && chat[id].gameId == gameId ==> (id, chat[id]) in r
  {
    var r := Collect(chat, n, (c: ChatDoc) => c.gameId == gameId);
    assert forall k :: 0 <= k < |r| ==> r[k] in r;
    r
  }

  /** The messages newest first. */
  function NewestFirst(msgs: seq<(Id, ChatDoc)>): (r: seq<(Id, ChatDoc)>)
    ensures multiset(r) == multiset(msgs) && |r| == |msgs|
    ensures forall k :: 0 <= k < |r| ==> r[k] in msgs
    ensures forall m :: m in msgs ==> m in r
    ensures forall i, j :: 0 <= i < j < |r| ==> r[i].1.timestamp >= r[j].1.timestamp
  {
    var r := SortDesc(msgs, (m: (Id, ChatDoc)) => m.1.timestamp);
    assert forall k :: 0 <= k < |r| ==> r[k] in multiset(msgs);
    assert forall m :: m in msgs ==> m in multiset(r);
    r
  }

  /** `if (args.limit) slice(0, args.limit)`: a prefix of the listing, all of it when the limit is absent or zero. */
  function Limited<T>(s: seq<T>, limit: Option<int>): (r: seq<T>)
    ensures |r| <= |s| && forall k :: 0 <= k < |r| ==> r[k] == s[k]
    ensures limit.None? || limit.value == 0 ==> r == s
    ensures limit.Some? && limit.value > 0 ==> |r| == if limit.value <= |s| then limit.value else |s|
  {
    if limit.Some? && limit.value != 0 then s[..SliceEnd(|s|, limit.value)] else s
  }

  /**
   * `getGameMessages`: the game's messages newest first, cut to the limit
   * when one other than zero is given.
   */
  function GetGameMessages(db: Db, gameId: Id, limit: Option<int>): (r: seq<(Id, ChatDoc)>)
    requires db.Valid()
    reads db
    ensures forall k :: 0 <= k < |r| ==> r[k].0 in db.chat && db.chat[r[k].0] == r[k].1 && r[k].1.gameId == gameId
    ensures forall i, j :: 0 <= i < j < |r| ==> r[i].1.timestamp >= r[j].1.timestamp
    ensures limit.None? || limit.value == 0 ==>
              forall id :: id in db.chat && db.chat[id].gameId == gameId ==> (id, db.chat[id]) in r
    ensures limit.Some? && limit.value > 0 ==> |r| <= limit.value
  {
    var sorted := NewestFirst(OfGame(db.chat, db.nextId, gameId));
    Limited(sorted, limit)
  }

  /** A game's messages left off by a limit are no newer than any message shown. */
  lemma GetGameMessagesNewest(db: Db, gameId: Id, limit: Option<int>)
    requires db.Valid()
    ensures var r := GetGameMessages(db, gameId, limit);
            forall id :: id in db.chat && db.chat[id].gameId == gameId ==>
              (id, db.chat[id]) in r || forall k :: 0 <= k < |r| ==> r[k].1.timestamp >= db.chat[id].timestamp
  {
    var msgs := OfGame(db.chat, db.nextId, gameId);
    var sorted := NewestFirst(msgs);
    var r := GetGameMessages(db, gameId, limit);
    assert |r| <= |sorted| && forall k :: 0 <= k < |r| ==> r[k] == sorted[k];
    forall id | id in db.chat && db.chat[id].gameId == gameId
      ensures (id, db.chat[id]) in r || forall k :: 0 <= k < |r| ==> r[k].1.timestamp >= db.chat[id].timestamp
    {
      assert (id, db.chat[id]) in sorted;
      var j :| 0 <= j < |sorted| && sorted[j] == (id, db.chat[id]);
      if j < |r| {
        assert r[j] == (id, db.chat[id]);
      }
    }
  }

  /**
   * Without a limit (or with a limit of zero) every message of the game is
   * listed; a positive limit lists that many, or all of them when there are
   * fewer.
   */
  lemma GetGameMessagesCount(db: Db, gameId: Id, limit: Option<int>)
    requires db.Valid()
    ensures var r := GetGameMessages(db, gameId, limit);
            var total := |GameMessageIds(db.chat, gameId)|;
            && (limit.None? || limit.value == 0 ==> |r| == total)
            && (limit.Some? && limit.value > 0 ==> |r| == if limit.value <= total then limit.value else total)
  {
    var msgs := OfGame(db.chat, db.nextId, gameId);
    OfGameIds(db, gameId);
    IncreasingIdsCount(msgs);
  }

  /** The scan of a game's messages names exactly the game's messages. */
  lemma OfGameIds(db: Db, gameId: Id)
    requires db.Valid()
    ensures IdsOf(OfGame(db.chat, db.nextId, gameId)) == GameMessageIds(db.chat, gameId)
  {
    var msgs := OfGame(db.chat, db.nextId, gameId);
    forall id | id in IdsOf(msgs) ensures id in GameMessageIds(db.chat, gameId) {
      var k :| 0 <= k < |msgs| && msgs[k].0 == id;
      assert msgs[k] in msgs;
    }
    forall id | id in GameMessageIds(db.chat, gameId) ensures id in IdsOf(msgs) {
      assert (id, db.chat[id]) in msgs;
      var k :| 0 <= k < |msgs| && msgs[k] == (id, db.chat[id]);
    }
  }

  /** `sendMessage`: stores the message, stamped with the time and a plain message unless a kind is given. */
  method SendMessage(db: Db, gameId: Id, userId: string, userName: string, message: string,
                     kind: Option<ChatKind>, now: int) returns (messageId: Id)
    requires db.Valid()
    modifies db
    ensures db.Valid()
    ensures messageId == old(db.nextId) && messageId !in old(db.chat) && db.nextId == old(db.nextId) + 1
    ensures db.chat == old(db.chat)[messageId := ChatDoc(gameId, userId, userName, message, now, KindOrMessage(kind))]
    ensures db.games == old(db.games) && db.players == old(db.players) && db.rounds == old(db.rounds)
    ensures db.actions == old(db.actions) && db.users == old(db.users)
    ensures (messageId, db.chat[messageId]) in GetGameMessages(db, gameId, None)
  {
    messageId := db.FreshId();
    db.chat := db.chat[messageId := ChatDoc(gameId, userId, userName, message, now, KindOrMessage(kind))];
  }

  /** The ids of a game's messages. */
  ghost function GameMessageIds(chat: map<Id, ChatDoc>, gameId: Id): set<Id>
  {
    set id | id in chat && chat[id].gameId == gameId
  }

  /**
   * `clearGameChat`: deletes every message of the game, one at a time,
   * keeps every other message, and reports how many it deleted; the game
   * then shows no messages.
   */
  method ClearGameChat(db: Db, gameId: Id) returns (deleted: int)
    requires db.Valid()
    modifies db
    ensures db.Valid()
    ensures db.chat == old(db.chat) - GameMessageIds(old(db.chat), gameId)
    ensures deleted == |GameMessageIds(old(db.chat), gameId)|
    ensures db.games == old(db.games) && db.players == old(db.players) && db.rounds == old(db.rounds)
    ensures db.actions == old(db.actions) && db.users == old(db.users) && db.nextId == old(db.nextId)
    ensures GetGameMessages(db, gameId, None) == []
  {
    var messages := OfGame(db.chat, db.nextId, gameId);
    OfGameIds(db, gameId);
    DeleteAll(db, messages);
    IncreasingIdsCount(messages);
    deleted := |messages|;
  }

  /** The loop of `clearGameChat`: deletes the listed messages one at a time. */
  method DeleteAll(db: Db, messages: seq<(Id, ChatDoc)>)
    requires db.Valid()
    modifies db
    ensures db.Valid()
    ensures db.chat == old(db.chat) - IdsOf(messages)
    ensures db.games == old(db.games) && db.players == old(db.players) && db.rounds == old(db.rounds)
    ensures db.actions == old(db.actions) && db.users == old(db.users) && db.nextId == old(db.nextId)
  {
    for i := 0 to |messages|
      invariant db.Valid()
      invariant db.chat == old(db.chat) - IdsOf(messages[..i])
      invariant db.games == old(db.games) && db.players == old(db.players) && db.rounds == old(db.rounds)
      invariant db.actions == old(db.actions) && db.users == old(db.users) && db.nextId == old(db.nextId)
    {
      IdsOfSnoc(messages, i);
      db.chat := db.chat - {messages[i].0};
    }
    assert messages[..|messages|] == messages;
  }
}
