# poker-chines in Dafny

A model of the game logic of poker-chines, a card-game app with a Convex
backend, and proofs about that model.

It has two layers.

- **The in-memory card layer.**
  - A `Deck` builds the 52 cards suit by suit. It shuffles them by swapping in place and deals from the front.
  - A `Dealer` seats two to four players with thirteen cards each and sorts every hand by suit, then by value. It flags one starting player: the first holder of the Three of Diamonds, or else the owner of the lowest card by value and then suit.
  - A `GameManager` starts a game, hands the turn round the table, and answers questions about the seated players.
- **The backend mutations and queries.**
  - `playerAction` is the betting engine. It handles fold, check, call, bet, raise and all-in, moves stakes into the pot, logs the action and passes the turn.
  - The table lifecycle covers creating, listing, joining, starting and leaving games.
  - The user accounts cover sign-in upsert, the statistics merge and the leaderboard.
  - The game chat covers sending, listing newest first and clearing.

The database becomes a `Db` object holding one map per table and one id
counter. Each mutation is one method that changes the maps. A thrown
error becomes an `Err` result that leaves every table and the counter as
they were, because the backend rolls back a mutation that throws.

Files and modules:

| file | module | models |
|---|---|---|
| `js.dfy` | `Js` | `undefined`/throw as `Option`/`Result`; `findIndex`, `find`, the truncating `%`, the end index of `slice`, `${n}`, and the stable `sort` with a descending numeric comparator |
| `cards.dfy` | `Cards` | suits, ranks, cards, players, the session snapshot, and the errors |
| `deck.dfy` | `Decks` | class `Deck` |
| `dealer.dfy` | `Dealers` | class `Dealer` and the two scans of `determineStartingPlayer` |
| `game_manager.dfy` | `GameManagers` | class `GameManager` |
| `store.dfy` | `Store` | the table records, the index scans (`.first()` and `.collect()`), and class `Db` |
| `players.dfy` | `Players` | `playerAction` and `updatePlayerChips` |
| `games.dfy` | `Games` | `createGame`, `listGames`, `joinGame`, `startGame` and `leaveGame` |
| `users.dfy` | `Users` | `createOrUpdateUser`, `getUser`, `updateUserStats` and `getLeaderboard` |
| `chat.dfy` | `Chat` | `sendMessage`, `getGameMessages` and `clearGameChat` |

The model follows the code as written, including behaviour the code
allows without evidently intending it:

- A call made while the player's bet is above the round's bet stakes a negative amount. The player takes chips back, and the pot is left as it was (`Players.CallAboveRoundBetRefunds`).
- A bet or raise sets the round's bet even when it is below the current one.
- Because the second join already makes a game active, `startGame` throws on every table reachable through the other mutations (`Games.StartGame`, with the invariant `Games.Lifecycle`).

## Model

| member | source | states |
|---|---|---|
| Js.FindIndex | src/game/GameManager.ts:24 | `findIndex` gives -1 exactly when no element matches. Otherwise it gives the first matching index. |
| Js.Find | src/game/Dealer.ts:50-52 | `find` gives nothing exactly when no element matches. Otherwise it gives the element at the first matching index. |
| Js.Rem | convex/players.ts:138 | JavaScript `%` truncates. The result has the sign of the dividend and is the Euclidean remainder for non-negative operands. |
| Js.SliceEnd | convex/users.ts:116 | `slice(0, end)` keeps `min(end, len)` elements for `end >= 0`. A negative `end` counts back from the length, and the result is never below 0. |
| Js.SortDesc | convex/users.ts:106-114 | The sort with comparator `key(b) - key(a)` gives a permutation of its input, ordered by non-increasing key. |
| Decks.RankValue | src/game/Deck.ts:15-29 | The rank values run from 3 (Three) to 15. The value is the rank's position plus 3, and a value of 15 means exactly the Two, so the Two outranks the Ace. |
| Decks.FullDeckNoRepeats | src/game/Deck.ts:31-39 | The 52 initialised cards are pairwise distinct. |
| Decks.FullDeckComplete | src/game/Deck.ts:31-39 | The initialised cards are exactly the well-formed cards: each suit with each rank at its value. |
| Decks.DrawnNoRepeats | src/game/Deck.ts:49-54 | Any cards taken without repetition from the full set hold each card at most once, and all are well-formed. |
| Decks.FullDeckNext | src/game/Deck.ts:33-37 | Each push of the nested loops appends the next card of the full deck. |
| Decks.Deck.constructor | src/game/Deck.ts:6-9 | A new deck holds a permutation of the 52 cards. |
| Decks.Deck.InitializeDeck | src/game/Deck.ts:11-40 | The 52 cards are appended after the current ones, suit by suit and rank by rank. |
| Decks.Deck.Shuffle | src/game/Deck.ts:42-47 | Whatever index in `[0, i]` each swap picks, the result is a permutation of the cards. |
| Decks.Deck.Deal | src/game/Deck.ts:49-54 | Asking for more cards than remain throws and leaves the deck as it was. Otherwise the call returns the first `count` cards, leaves the rest, and the count drops by `count`. A negative count takes nothing. |
| Decks.Deck.GetCards | src/game/Deck.ts:56-58 | Returns the cards without changing the deck. |
| Decks.Deck.GetRemainingCount | src/game/Deck.ts:60-62 | Returns the number of cards left. |
| Decks.Deck.Reset | src/game/Deck.ts:64-68 | Whatever the deck held before, it then holds a permutation of the 52 cards. |
| Dealers.CompareCards | src/game/Dealer.ts:75-82 | The result is negative exactly when the first card has the lower value, or the same value and an earlier suit. It is zero exactly when value and suit agree. |
| Dealers.CompareCardsStrictTotalOrder | src/game/Dealer.ts:75-82 | On well-formed cards, `compareCards` is zero only for equal cards, is antisymmetric, and is transitive. |
| Dealers.HandOrder | src/game/Dealer.ts:35-41 | The `sortCards` comparator orders cards by suit first, then by ascending value. |
| Dealers.SortCards | src/game/Dealer.ts:34-42 | A sorted hand is a permutation of the dealt cards, with each card in hand order before the next. |
| Dealers.AscendingSorted | src/game/Dealer.ts:34-42 | Order between neighbours gives order between any two cards of the hand. |
| Dealers.Seat | src/game/Dealer.ts:21-26 | Seat `i` gets id `player-(i+1)` and name `Player (i+1)`. Its hand is a permutation of the dealt cards with each card in hand order before the next. It is not flagged. |
| Dealers.Seated | src/game/Dealer.ts:19-27 | A deal seats exactly `n` players. What each seat holds is stated by DealtSeat. |
| Dealers.TaggedMembers | src/game/Dealer.ts:61-62 | The cards the lowest-card scan visits are exactly the pairs (owner, card) in play. |
| Dealers.Lowest | src/game/Dealer.ts:61-68 | The running minimum is missing only when the scan visits no card. |
| Dealers.LowestIsMinimum | src/game/Dealer.ts:61-68 | The running minimum is a visited card, and no visited card compares lower. |
| Dealers.LowestIsFirst | src/game/Dealer.ts:61-68 | The strict `<` keeps the first lowest card: every card visited before it compares strictly higher. |
| Dealers.StartingSeat | src/game/Dealer.ts:44-73 | The seat that gets flagged, if any, is one of the players. |
| Dealers.StartingSeatThreeOfDiamonds | src/game/Dealer.ts:49-57 | When some player holds the Three of Diamonds, the first such player starts. |
| Dealers.StartingSeatLowestCard | src/game/Dealer.ts:61-72 | Without a Three of Diamonds in play, the starting seat holds a card that no card in play beats. |
| Dealers.NoStartingSeatOnlyWithoutCards | src/game/Dealer.ts:70-72 | No seat is flagged exactly when no player holds a card. |
| Dealers.StartingSeatByScan | src/game/Dealer.ts:60-72 | Without a Three of Diamonds in play, the starting seat is the owner the lowest-card scan finds. |
| Dealers.MarkStarting | src/game/Dealer.ts:55-71 | Setting the flag keeps the number of players and every other field. A player is flagged afterwards exactly when they were already flagged or are the chosen seat. |
| Dealers.MarkStartingExactlyOne | src/game/Dealer.ts:70-72 | Flagging a seat among unflagged players flags exactly that seat, changes nothing else, and `findIndex` finds that seat. |
| Dealers.SeatedCards | src/game/Dealer.ts:19-27 | The cards of the first `n` seats are, as a multiset, the first `13 * n` cards of the deck. |
| Dealers.DealtSeat | src/game/Dealer.ts:19-27 | Seat `k` of a deal gets id `player-(k+1)` and thirteen cards in hand order: a permutation of the `k`-th run of thirteen. It is not flagged yet. |
| Dealers.DealtCardsDistinct | src/game/Dealer.ts:19-20 | A deck without repeats never deals a card twice across the hands. |
| Dealers.DealPicksStartingSeat | src/game/Dealer.ts:60-72 | A deal to at least one seat always flags a seat. |
| Dealers.Dealer.constructor | src/game/Dealer.ts:7-9 | A new dealer owns a new deck holding a permutation of the 52 cards. |
| Dealers.Dealer.DealToPlayers | src/game/Dealer.ts:11-32 | A player count outside 2–4 throws and leaves the deck alone. A deck running short throws after the earlier seats have taken their cards. Otherwise the call returns the seated players with the starting flag set, and the deck keeps what was not dealt. |
| Dealers.Dealer.DetermineStartingPlayer | src/game/Dealer.ts:44-73 | The two scans flag the seat `StartingSeat` names, or none. |
| Dealers.Dealer.LowestOwner | src/game/Dealer.ts:61-68 | The nested scan ends with the owner of the running minimum of all cards in seat order. |
| Dealers.Dealer.LowestInHand | src/game/Dealer.ts:62-67 | The inner loop keeps the running minimum over one more hand. |
| Dealers.Dealer.ResetDeck | src/game/Dealer.ts:84-86 | The deck then holds a permutation of the 52 cards. |
| GameManagers.Step | src/game/GameManager.ts:47-54 | `(index + 1) % n` stays in range and wraps from the last seat to the first. |
| GameManagers.StepNRotates | src/game/GameManager.ts:47-54 | `k <= n` turns from `idx` move `k` seats round the table. |
| GameManagers.FullRoundReturns | src/game/GameManager.ts:47-54 | `n` turns return to the starting seat, and no seat gets the turn twice within a round. |
| GameManagers.SeatIdsDistinct | src/game/Dealer.ts:22 | The seats of a table of at most four players have different ids. |
| GameManagers.DealtTable | src/game/GameManager.ts:23-31 | A dealt table flags exactly one seat, and that seat is the one `findIndex` locates. The seats carry ids `player-1`, `player-2`, and so on. |
| GameManagers.GameManager.constructor | src/game/GameManager.ts:8-16 | A new manager is not started, with a complete deck. |
| GameManagers.GameManager.StartNewGame | src/game/GameManager.ts:18-34 | A started game throws and changes nothing. A bad player count throws and changes nothing. Otherwise the dealt players are seated, the turn goes to the flagged seat, the game is started, and the deck keeps the undealt cards. |
| GameManagers.GameManager.Begin | src/game/GameManager.ts:26-31 | The new snapshot seats the players with the turn at the flagged seat, keeping the session invariant. |
| GameManagers.GameManager.GetGameState | src/game/GameManager.ts:36-38 | Returns the snapshot as a value. |
| GameManagers.GameManager.GetCurrentPlayer | src/game/GameManager.ts:40-45 | Gives nothing exactly when no game is in progress. Otherwise it gives the player holding the turn. |
| GameManagers.GameManager.NextTurn | src/game/GameManager.ts:47-54 | Throws and changes nothing when not started. Otherwise the turn moves one seat on, wrapping round. |
| GameManagers.GameManager.ResetGame | src/game/GameManager.ts:56-64 | The session goes back to not started with a reshuffled complete deck. |
| GameManagers.GameManager.GetPlayerById | src/game/GameManager.ts:66-68 | Gives nothing exactly when no seated player has the id. Otherwise it gives a player with that id. |
| GameManagers.GameManager.PlayerByIdFindsSeat | src/game/GameManager.ts:66-68 | In a game in progress, the id of seat `k` finds exactly the player in seat `k`. |
| GameManagers.GameManager.GetStartingPlayer | src/game/GameManager.ts:70-72 | Gives nothing when not started. Otherwise it gives the one flagged player. |
| Store.Oldest | convex/games.ts:66-70 | `.first()` of a filtered index scan gives nothing exactly when no document matches. Otherwise it gives the oldest match. |
| Store.Collect | convex/games.ts:38-41 | `.collect()` of a scan lists exactly the matching documents, oldest first. |
| Store.All | convex/users.ts:102 | `.collect()` of a whole table lists every document once, oldest first. |
| Store.AllCountsTable | convex/users.ts:102 | The whole-table listing has as many entries as the table has documents. |
| Store.Db.FreshId | convex/games.ts:18 | An insert gets an id no document has, and no table changes. |
| Players.Settle | convex/players.ts:62-106 | The `switch` throws exactly for a check while behind, or for a bet or raise without a non-zero amount. Otherwise the chips drop by the stake, and stay non-negative when they were. |
| Players.SettleFold | convex/players.ts:67-69 | A fold stakes nothing and folds the player. |
| Players.SettleCheck | convex/players.ts:70-74 | A check throws exactly when the round's bet is above the player's. Otherwise it moves nothing. |
| Players.SettleCall | convex/players.ts:75-82 | A call stakes what the player owes, capped at their chips. The player goes all-in exactly when the cap applies. |
| Players.SettleBetOrRaise | convex/players.ts:83-95 | A bet or raise with an absent or zero amount throws. Otherwise it stakes the amount capped at the chips, going all-in when capped. It sets the round bet to the player's new bet unconditionally. |
| Players.SettleAllIn | convex/players.ts:96-105 | An all-in stakes every chip. It raises the round's bet exactly when the player's new bet exceeds it. |
| Players.SettleConservesChips | convex/players.ts:108-114 | For every action, chips plus total bet is conserved, and both bets grow by the stake. Chips stay non-negative, and the turn is given up. |
| Players.CallAboveRoundBetRefunds | convex/players.ts:75-82 | A call made while the player's bet is above the round's bet stakes a negative amount and leaves the round as it was. |
| Players.Acted | convex/players.ts:108-114 | The player gets the settled chips and status, both bets grow by the stake, and the turn is given up. No other field changes. |
| Players.Staked | convex/players.ts:83-120 | The pot grows by exactly the stake when it is positive and is otherwise unchanged. The round bet is the settled one when the action sets one, and is otherwise kept. No other field of the round changes. |
| Players.Logged | convex/players.ts:122-129 | The entry names the game, round, player and action. The amount is present exactly when the stake is positive, and it is then the stake. |
| Players.ActivePlayers | convex/players.ts:131-135 | The scan lists exactly the active players of the game, oldest first. |
| Players.NextHolder | convex/players.ts:137-139 | The next turn holder, if any, is a stored player. |
| Players.NextHolderSeat | convex/players.ts:131-145 | The next turn holder is the oldest active player seated at `(position + 1) % count`, where `count` is the number of active players after the update. |
| Players.NextHolderNone | convex/players.ts:131-145 | Nobody gets the turn exactly when there is no active player, or none sits at that position. |
| Players.PassTurn | convex/players.ts:141-145 | Passing the turn keeps the set of players. |
| Players.PassTurnOnlyFlags | convex/players.ts:141-145 | Passing the turn changes only the turn flag of the player who gets it. |
| Players.PlayerAction | convex/players.ts:39-149 | A missing player, a player not on turn, a missing round or a refused action each throw in that order and change nothing. Otherwise the call patches the round and the player, logs one action, passes the turn, and returns the log entry's id. |
| Players.Apply | convex/players.ts:108-145 | The writes of a settled action, and nothing else. |
| Players.HandOnTurn | convex/players.ts:139-145 | The turn goes to the next holder, if any. |
| Players.Rechipped | convex/players.ts:30-33 | Sets the chips. The status becomes `out` exactly when the chips are at most 0 and is kept otherwise. Nothing else changes. |
| Players.UpdatePlayerChips | convex/players.ts:21-37 | A missing player throws and changes nothing. Otherwise only that player is patched. |
| Games.Membership | convex/games.ts:66-70 | Gives nothing exactly when the user has no record in the game. Otherwise it gives the oldest record. |
| Games.NewGame | convex/games.ts:18-26 | A new game is waiting, seats nobody, has not started, and keeps the given name, size, creator, settings and creation time. |
| Games.Joined | convex/games.ts:74-86 | A joiner sits at the next position with the game's starting chips, active, with zero bets and without the turn. They are the dealer exactly when first to join. |
| Games.AfterJoin | convex/games.ts:88-97 | A join counts one more player. From the second player on, the game is active with the join time as its start. Before that, status and start are kept. No other field changes. |
| Games.FirstRound | convex/games.ts:116-124 | The first round is number 1 of the game, with an empty pot, no community cards, the big blind as the bet to match, and the pre-flop phase. |
| Games.AfterJoinLifecycle | convex/games.ts:88-97 | A join counts one more player. The game turns active exactly when the count reaches two, so a waiting game seats fewer than two. |
| Games.AfterLeave | convex/games.ts:151-153 | A leave counts one fewer player, and never fewer than zero. Every other field is kept, including the status. |
| Games.CreateGame | convex/games.ts:5-30 | Inserts a waiting game with nobody seated and the given settings, keeping the lifecycle invariant. |
| Games.ListGames | convex/games.ts:32-45 | With a status it lists exactly the games with that status, oldest first. Without one it lists every game. |
| Games.JoinGame | convex/games.ts:54-101 | A missing game, a game not waiting, a full game or a user already in the game each throw in that order and change nothing. Otherwise the user is seated and counted. The lifecycle invariant is kept. |
| Games.SeatPlayer | convex/games.ts:74-97 | The writes of an accepted join, and nothing else. |
| Games.StartGame | convex/games.ts:103-128 | A missing game, a game not waiting, or fewer than two players throw and change nothing. Otherwise the game turns active and round 1 is inserted. On every table that keeps the lifecycle invariant, the call throws. |
| Games.LeaveGame | convex/games.ts:130-157 | A missing game or a user without a record throws and changes nothing. Otherwise the oldest record is marked out and the count drops, never below zero. |
| Users.OrElse | convex/users.ts:20-21 | The JavaScript or-operator on optional strings keeps a present non-empty `a`. An absent or empty `a` gives `b`. |
| Users.UserByExternalId | convex/users.ts:12-15 | Gives nothing exactly when no user has the identity. Otherwise it gives the oldest such user. |
| Users.GetUser | convex/users.ts:48-56 | Gives nothing exactly when no user has the identity. Otherwise it gives the oldest user with that identity: no user with a smaller id has it. |
| Users.NewUser | convex/users.ts:27-42 | A new user has the given profile, all numeric statistics at 0, no best hand, and both times at the sign-in time. |
| Users.Refreshed | convex/users.ts:17-23 | A refresh overwrites the name and records the sign-in time. It keeps identity, statistics and creation time. A new non-empty email or avatar replaces the stored one. An absent or empty one keeps it. |
| Users.RefreshKeepsLookup | convex/users.ts:17-24 | After a refresh the identity still finds the same user, and identities stay unique. |
| Users.InsertMakesLookup | convex/users.ts:27-44 | After an insert the identity finds the new user, and identities stay unique. |
| Users.CreateOrUpdateUser | convex/users.ts:4-46 | A known identity refreshes its oldest user and returns that id without inserting. An unknown one inserts a new user. Either way the identity then finds the returned user, and identities stay unique. |
| Users.RefreshUser | convex/users.ts:17-24 | The write of a refresh, and nothing else. |
| Users.InsertUser | convex/users.ts:27-44 | The write of an insert, and nothing else. |
| Users.OrStored | convex/users.ts:75-80 | `a ?? b` gives `b` only when `a` is absent, so a reported 0 is kept. |
| Users.MergeStats | convex/users.ts:74-81 | Every reported statistic replaces the stored one, even when it is 0, and every other one is kept. |
| Users.MergeStatsIdempotent | convex/users.ts:74-81 | An empty report changes nothing, and merging the same report twice is merging it once. |
| Users.UpdateUserStats | convex/users.ts:58-90 | An unknown user throws and changes nothing. Otherwise only that user's statistics and activity time change. |
| Users.MetricValue | convex/users.ts:107-109 | Each metric reads its own statistic. |
| Users.ChosenMetric | convex/users.ts:103 | An absent metric ranks by games won. A given one is kept. |
| Users.ChosenLimit | convex/users.ts:104 | An absent limit or a limit of 0 shows ten users. Any other limit is kept. |
| Users.Ranking | convex/users.ts:106-114 | The users in order of the metric, highest first: a permutation of the listing. |
| Users.Leaderboard | convex/users.ts:101-126 | The length is `min(limit, users)` for a non-negative limit, or what `slice` keeps for a negative one. The default limit is 10, also for a limit of 0. Ranks run 1, 2, … with the chosen metric (default `gamesWon`), and values do not increase. |
| Users.LeaderboardFromRanking | convex/users.ts:116-125 | Line `k` shows the user ranked `k`-th, with that user's value. |
| Users.LeaderboardEntriesListed | convex/users.ts:116-125 | Each line is a listed user with their own name, avatar and value. |
| Users.LeaderboardShowsTop | convex/users.ts:106-125 | A user left off has a value no higher than anyone shown. |
| Users.GetLeaderboard | convex/users.ts:92-127 | Every line is a stored user with their current value, in non-increasing order. |
| Users.GetLeaderboardShowsTop | convex/users.ts:102-125 | No stored user is left off while someone with a lower value is shown. |
| Users.GetLeaderboardSize | convex/users.ts:102-125 | The leaderboard shows `min(limit, number of users)` users. |
| Chat.KindOrMessage | convex/chat.ts:19 | An absent message type becomes `message`. A given type is kept. |
| Chat.OfGame | convex/chat.ts:32-36 | The index scan lists exactly the game's messages, oldest first. |
| Chat.OfGameIds | convex/chat.ts:51-54 | The scan names exactly the ids of the game's messages. |
| Chat.NewestFirst | convex/chat.ts:38 | The messages are rearranged by non-increasing timestamp, keeping every message. |
| Chat.Limited | convex/chat.ts:40-44 | A truthy limit keeps a prefix of that length, or all of the messages when there are fewer. An absent or zero limit keeps everything. |
| Chat.GetGameMessages | convex/chat.ts:26-46 | Lists only the game's messages, newest first. Without a limit it lists all of them. A positive limit caps the count. |
| Chat.GetGameMessagesNewest | convex/chat.ts:38-42 | A message left off by the limit is no newer than any message shown. |
| Chat.GetGameMessagesCount | convex/chat.ts:36-44 | The count is every message of the game, or `min(limit, that)` for a positive limit. |
| Chat.SendMessage | convex/chat.ts:4-24 | Inserts the message with the given type or `message`. The message then appears in the game's listing. |
| Chat.ClearGameChat | convex/chat.ts:48-62 | Deletes exactly the game's messages, keeps every other message, and returns how many it deleted. The game then lists no messages. |
| Chat.DeleteAll | convex/chat.ts:56-58 | The loop deletes the listed messages one at a time and touches nothing else. |

## Left out

- `Math.random` in `shuffle` (src/game/Deck.ts:44) becomes an arbitrary choice of `j` in `[0, i]`. Whether the shuffle is uniform is a probabilistic question and is not modelled.
- `Date.now()` becomes a `now` parameter, one per call.
  - The source reads the clock separately for fields such as `createdAt` and `lastActiveAt`, or the two `startedAt` values of `startGame`. The model gives them one time.
- JavaScript numbers become unbounded integers. Fractional amounts, NaN and floating-point rounding are not modelled.
- The backend runtime is modelled only as far as the mutations observe it.
  - Ids come from one counter shared by all tables, so a scan of an index on equal keys lists documents in id order, which is creation order.
  - Argument validation (`v.id`, `v.union`) is not modelled. An id of the wrong table simply is not found.
  - Concurrency between mutations is not modelled. Each mutation is atomic, and a throw leaves the state as it was.
- `getGameState` (src/game/GameManager.ts:36-38) returns a JSON deep copy. The model returns the snapshot as a Dafny value, which no caller can change.
- The optional record fields that nothing here sets are not kept: `completedAt`, `winner`, the stored `cards`, and `winningHand`.
- The thin queries `getGamePlayers`, `getPlayer`, `getPlayerStats` (convex/players.ts) and `getGame` (convex/games.ts) are not part of this model.
- Dealers.SortCards: `sortCards` sorts a freshly dealt array in place. It is modelled as a function on the sequence of dealt cards.
  - The contract states a permutation in hand order. On well-formed cards, the only cards the comparator ties are identical, so that order is unique.
- Dealers.Dealer.DetermineStartingPlayer: the source sets the flag on the player object the scan found. The model sets it by seat index on a sequence of player values, so aliasing is not modelled.
- Js.SortDesc: the sort is stable (an insertion sort that keeps equal keys in their original order), but stability is not stated as a contract.
- Dealers.StartingSeat: its contract states only that the seat is in range. What the seat is, is stated by StartingSeatThreeOfDiamonds, StartingSeatLowestCard, StartingSeatByScan and NoStartingSeatOnlyWithoutCards.
- Dealers.Seated: its contract states only the number of seats. Each seat's id, hand and flag are stated by Dealers.DealtSeat.
- Chat.GetGameMessages: its contract bounds the count by a positive limit. The exact count is stated by Chat.GetGameMessagesCount.
- App.tsx, convex/schema.ts and src/types/game.ts hold no logic. The schema gives only the record fields and enumerations of `store.dfy`.
