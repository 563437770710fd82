/**
 * The user accounts of the backend: signing in creates a user or refreshes
 * the one with the same external identity, game results patch a user's
 * statistics, and the leaderboard ranks users by one statistic.
 */
module Users {
  import opened Js
  import opened Store

  /** The empty statistics of a new user. */
  const NoStats: Stats := Stats(0, 0, 0, 0, 0, None)

  /** JavaScript `a || b` on an optional string: an absent or empty `a` gives `b`. */
  function OrElse(a: Option<string>, b: Option<string>): (r: Option<string>)
    ensures r == a || r == b
    ensures a.Some? && a.value != "" ==> r == a
    ensures a.None? || a.value == "" ==> r == b
  {
    if a.Some? && a.value != "" then a else b
  }

  /** The oldest user with the external identity, scanning the ids below `n`. */
  function UserByExternalId(users: map<Id, UserDoc>, n: nat, externalId: string): (r: Option<Id>)
    ensures r.None? <==> forall id :: id in users && id < n ==> users[id].externalId != externalId
    ensures r.Some? ==> r.value in users && r.value < n && users[r.value].externalId == externalId
    ensures r.Some? ==> forall id :: id in users && id < r.value ==> users[id].externalId != externalId
  {
    Oldest(users, n, (u: UserDoc) => u.externalId == externalId)
  }

  /** `getUser`: the user with the external identity, if any. */
  function GetUser(db: Db, externalId: string): (r: Option<UserDoc>)
    requires db.Valid()
    reads db
    ensures r.None? <==> forall id :: id in db.users ==> db.users[id].externalId != externalId
    ensures r.Some? ==> r.value in db.users.Values && r.value.externalId == externalId
    ensures r.Some? ==> exists id :: id in db.users && db.users[id] == r.value &&
                          forall older :: older in db.users && older < id ==> db.users[older].externalId != externalId
  {
    var id := UserByExternalId(db.users, db.nextId, externalId);
    if id.Some? then
      assert db.users[id.value] == db.users[id.value];
      Some(db.users[id.value])
    else None
  }

  /** The record `createOrUpdateUser` inserts for an unknown identity. */
  function NewUser(externalId: string, name: string, email: Option<string>, avatar: Option<string>, now: int): (u: UserDoc)
    ensures u.externalId == externalId && u.name == name && u.email == email && u.avatar == avatar
    ensures u.stats.gamesPlayed == 0 && u.stats.gamesWon == 0 && u.stats.totalChipsWon == 0
    ensures u.stats.totalChipsLost == 0 && u.stats.biggestPot == 0 && u.stats.bestHand.None?
    ensures u.createdAt == now && u.lastActiveAt == now
  {
    UserDoc(externalId, name, email, avatar, NoStats, now, now)
  }

  /**
   * A known user signing in again. The refresh keeps who the user is and
   * what they achieved: the identity, the statistics and the creation time.
   * The name is the new one, the sign-in time is recorded, and an email or
   * avatar survives a sign-in that leaves it out or sends it empty.
   */
  function Refreshed(u: UserDoc, name: string, email: Option<string>, avatar: Option<string>, now: int): (v: UserDoc)
    ensures v.externalId == u.externalId && v.stats == u.stats && v.createdAt == u.createdAt
    ensures v.name == name && v.lastActiveAt == now
    ensures email.Some? && email.value != "" ==> v.email == email
    ensures email.None? || email == Some("") ==> v.email == u.email
    ensures avatar.Some? && avatar.value != "" ==> v.avatar == avatar
    ensures avatar.None? || avatar == Some("") ==> v.avatar == u.avatar
    ensures u.email.Some? ==> v.email.Some?
    ensures u.avatar.Some? ==> v.avatar.Some?
  {
    u.(name := name, email := OrElse(email, u.email), avatar := OrElse(avatar, u.avatar), lastActiveAt := now)
  }

  /** No two users share an external identity. */
  ghost predicate UniqueExternalIds(users: map<Id, UserDoc>)
  {
    forall a, b :: a in users && b in users && a != b ==> users[a].externalId != users[b].externalId
  }

  /** Refreshing the user an identity finds, keeping the identity, leaves the identity finding it and keeps identities unique. */
  lemma RefreshKeepsLookup(users: map<Id, UserDoc>, n: nat, externalId: string, id: Id, v: UserDoc)
    requires UserByExternalId(users, n, externalId) == Some(id) && v.externalId == externalId
    ensures UserByExternalId(users[id := v], n, externalId) == Some(id)
    ensures UniqueExternalIds(users) ==> UniqueExternalIds(users[id := v])
  {
    var updated := users[id := v];
    var after := UserByExternalId(updated, n, externalId);
    assert updated[id].externalId == externalId;
    assert after.Some? && after.value <= id;
    assert forall j :: j in updated && j < id ==> updated[j] == users[j];
    if UniqueExternalIds(users) {
      forall a, b | a in updated && b in updated && a != b
        ensures updated[a].externalId != updated[b].externalId
      {
        assert updated[a].externalId == users[a].externalId;
        assert updated[b].externalId == users[b].externalId;
      }
    }
  }

  /** Inserting a user under a fresh id, for an identity no user has, makes the identity find that user and keeps identities unique. */
  lemma InsertMakesLookup(users: map<Id, UserDoc>, n: nat, externalId: string, v: UserDoc)
    requires forall id :: id in users ==> id < n
    requires UserByExternalId(users, n, externalId).None? && v.externalId == externalId
    ensures UserByExternalId(users[n := v], n + 1, externalId) == Some(n)
    ensures UniqueExternalIds(users) ==> UniqueExternalIds(users[n := v])
  {
    var updated := users[n := v];
    var after := UserByExternalId(updated, n + 1, externalId);
    assert updated[n].externalId == externalId;
    assert after.Some?;
    if UniqueExternalIds(users) {
      forall a, b | a in updated && b in updated && a != b
        ensures updated[a].externalId != updated[b].externalId
      {
        if a != n && b != n {
          assert updated[a] == users[a] && updated[b] == users[b];
        }
      }
    }
  }

  /** Between the two states only the users table and the id counter may have changed. */
  twostate predicate UsersOnly(db: Db)
    reads db
  {
    && db.games == old(db.games) && db.players == old(db.players) && db.rounds == old(db.rounds)
    && db.actions == old(db.actions) && db.chat == old(db.chat)
  }

  /**
   * `createOrUpdateUser`: refreshes the oldest user with the external
   * identity and returns its id, or, when there is none, inserts a new user
   * with empty statistics and returns the new id. Either way the identity
   * then finds the returned user, and identities stay unique.
   */
  method CreateOrUpdateUser(db: Db, externalId: string, name: string, email: Option<string>,
                            avatar: Option<string>, now: int) returns (userId: Id)
    requires db.Valid()
    modifies db
    ensures db.Valid()
    ensures var existing := UserByExternalId(old(db.users), old(db.nextId), externalId);
            && (existing.Some? ==>
                  && userId == existing.value
                  && db.users == old(db.users)[userId := Refreshed(old(db.users)[userId], name, email, avatar, now)]
                  && db.nextId == old(db.nextId))
            && (existing.None? ==>
                  && userId == old(db.nextId)
                  && db.users == old(db.users)[userId := NewUser(externalId, name, email, avatar, now)]
                  && db.nextId == old(db.nextId) + 1)
    ensures UsersOnly(db)
    ensures UserByExternalId(db.users, db.nextId, externalId) == Some(userId)
    ensures UniqueExternalIds(old(db.users)) ==> UniqueExternalIds(db.users)
  {
    var existingUser := UserByExternalId(db.users, db.nextId, externalId);
    if existingUser.Some? {
      userId := existingUser.value;
      RefreshUser(db, externalId, userId, name, email, avatar, now);
    } else {
      userId := InsertUser(db, externalId, name, email, avatar, now);
    }
  }

  /** The write of a `createOrUpdateUser` that found the user: the user is refreshed in place. */
  method RefreshUser(db: Db, externalId: string, userId: Id, name: string, email: Option<string>,
                     avatar: Option<string>, now: int)
    requires db.Valid() && UserByExternalId(db.users, db.nextId, externalId) == Some(userId)
    modifies db
    ensures db.Valid() && UsersOnly(db) && db.nextId == old(db.nextId)
    ensures db.users == old(db.users)[userId := Refreshed(old(db.users)[userId], name, email, avatar, now)]
    ensures UserByExternalId(db.users, db.nextId, externalId) == Some(userId)
    ensures UniqueExternalIds(old(db.users)) ==> UniqueExternalIds(db.users)
  {
    var refreshed := Refreshed(db.users[userId], name, email, avatar, now);
    RefreshKeepsLookup(db.users, db.nextId, externalId, userId, refreshed);
    db.users := db.users[userId := refreshed];
  }

  /** The write of a `createOrUpdateUser` that found nobody: a new user is inserted. */
  method InsertUser(db: Db, externalId: string, name: string, email: Option<string>,
                    avatar: Option<string>, now: int) returns (userId: Id)
    requires db.Valid() && UserByExternalId(db.users, db.nextId, externalId).None?
    modifies db
    ensures db.Valid() && UsersOnly(db)
    ensures userId == old(db.nextId) && db.nextId == old(db.nextId) + 1
    ensures db.users == old(db.users)[userId := NewUser(externalId, name, email, avatar, now)]
    ensures UserByExternalId(db.users, db.nextId, externalId) == Some(userId)
    ensures UniqueExternalIds(old(db.users)) ==> UniqueExternalIds(db.users)
  {
    var inserted := NewUser(externalId, name, email, avatar, now);
    InsertMakesLookup(db.users, db.nextId, externalId, inserted);
    userId := db.FreshId();
    db.users := db.users[userId := inserted];
  }

  /** The statistics a caller reports; an absent field keeps the stored value. */
  datatype StatsPatch = StatsPatch(gamesPlayed: Option<int>, gamesWon: Option<int>, totalChipsWon: Option<int>,
                                   totalChipsLost: Option<int>, biggestPot: Option<int>, bestHand: Option<string>)

  /** JavaScript `a ?? b`: only an absent `a` gives `b`. */
  function OrStored<T>(a: Option<T>, b: T): (r: T)
    ensures a.Some? ==> r == a.value
    ensures a.None? ==> r == b
  {
    if a.Some? then a.value else b
  }

  /** `updateUserStats`'s merge: each reported field replaces the stored one, even when it is zero, and every other one is kept. */
  function MergeStats(s: Stats, p: StatsPatch): (r: Stats)
    ensures p.gamesPlayed.Some? ==> r.gamesPlayed == p.gamesPlayed.value
    ensures p.gamesPlayed.None? ==> r.gamesPlayed == s.gamesPlayed
    ensures p.gamesWon.Some? ==> r.gamesWon == p.gamesWon.value
    ensures p.gamesWon.None? ==> r.gamesWon == s.gamesWon
    ensures p.totalChipsWon.Some? ==> r.totalChipsWon == p.totalChipsWon.value
    ensures p.totalChipsWon.None? ==> r.totalChipsWon == s.totalChipsWon
    ensures p.totalChipsLost.Some? ==> r.totalChipsLost == p.totalChipsLost.value
    ensures p.totalChipsLost.None? ==> r.totalChipsLost == s.totalChipsLost
    ensures p.biggestPot.Some? ==> r.biggestPot == p.biggestPot.value
    ensures p.biggestPot.None? ==> r.biggestPot == s.biggestPot
    ensures p.bestHand.Some? ==> r.bestHand == p.bestHand
    ensures p.bestHand.None? ==> r.bestHand == s.bestHand
  {
    Stats(OrStored(p.gamesPlayed, s.gamesPlayed), OrStored(p.gamesWon, s.gamesWon),
          OrStored(p.totalChipsWon, s.totalChipsWon), OrStored(p.totalChipsLost, s.totalChipsLost),
          OrStored(p.biggestPot, s.biggestPot),
          if p.bestHand.Some? then p.bestHand else s.bestHand)
  }

  /** An empty report changes nothing, and merging the same report twice is merging it once. */
  lemma MergeStatsIdempotent(s: Stats, p: StatsPatch)
    ensures MergeStats(s, StatsPatch(None, None, None, None, None, None)) == s
    ensures MergeStats(MergeStats(s, p), p) == MergeStats(s, p)
  {
  }

  /**
   * `updateUserStats`: throws, changing nothing, for an unknown user;
   * otherwise merges the reported statistics into the user's and records
   * the time.
   */
  method UpdateUserStats(db: Db, userId: Id, stats: StatsPatch, now: int) returns (r: Result<(), Failure>)
    requires db.Valid()
    modifies db
    ensures db.Valid()
    ensures userId !in old(db.users) ==> r == Err(UserNotFound) && Untouched(db)
    ensures userId in old(db.users) ==>
              var u := old(db.users)[userId];
              && r == Ok(())
              && db.users == old(db.users)[userId := u.(stats := MergeStats(u.stats, stats), lastActiveAt := now)]
              && UsersOnly(db) && db.nextId == old(db.nextId)
    ensures UniqueExternalIds(old(db.users)) ==> UniqueExternalIds(db.users)
  {
    if userId !in db.users {
      return Err(UserNotFound);
    }
    var user := db.users[userId];
    db.users := db.users[userId := user.(stats := MergeStats(user.stats, stats), lastActiveAt := now)];
    r := Ok(());
  }

  /** The statistics a leaderboard can rank by. */
  datatype Metric = GamesWon | TotalChipsWon | BiggestPot

  /** The statistic `metric` names. */
  function MetricValue(s: Stats, metric: Metric): (v: int)
    ensures metric == GamesWon ==> v == s.gamesWon
    ensures metric == TotalChipsWon ==> v == s.totalChipsWon
    ensures metric == BiggestPot ==> v == s.biggestPot
  {
    match metric
    case BiggestPot => s.biggestPot
    case TotalChipsWon => s.totalChipsWon
    case GamesWon => s.gamesWon
  }

  /** A line of the leaderboard. */
  datatype Entry = Entry(rank: int, userId: Id, name: string, avatar: Option<string>, value: int, metric: Metric)

  /** `args.metric || "gamesWon"`: an absent metric ranks by games won. */
  function ChosenMetric(metric: Option<Metric>): (r: Metric)
    ensures metric.None? ==> r == GamesWon
    ensures metric.Some? ==> r == metric.value
  {
    if metric.Some? then metric.value else GamesWon
  }

  /** `args.limit || 10`: an absent or zero limit shows ten users. */
  function ChosenLimit(limit: Option<int>): (r: int)
    ensures limit.None? || limit.value == 0 ==> r == 10
    ensures limit.Some? && limit.value != 0 ==> r == limit.value
    ensures r != 0
  {
    if limit.Some? && limit.value != 0 then limit.value else 10
  }

  /** The users ordered by the metric, highest first; users with equal values keep their order. */
  function Ranking(rows: seq<(Id, UserDoc)>, metric: Metric): (r: seq<(Id, UserDoc)>)
    ensures multiset(r) == multiset(rows) && |r| == |rows|
    ensures forall i, j :: 0 <= i < j < |r| ==> MetricValue(r[i].1.stats, metric) >= MetricValue(r[j].1.stats, metric)
  {
    SortDesc(rows, (row: (Id, UserDoc)) => MetricValue(row.1.stats, metric))
  }

  /**
   * The leaderboard of the listed users: sorted by the chosen metric,
   * highest first, cut to the chosen limit, ranked from 1.
   */
  function Leaderboard(rows: seq<(Id, UserDoc)>, metric: Option<Metric>, limit: Option<int>): (r: seq<Entry>)
    ensures var lim := ChosenLimit(limit);
            && (lim >= 0 ==> |r| == if lim <= |rows| then lim else |rows|)
            && (lim < 0 ==> |r| == if -lim <= |rows| then |rows| + lim else 0)
    ensures forall k :: 0 <= k < |r| ==> r[k].rank == k + 1 && r[k].metric == ChosenMetric(metric)
    ensures forall i, j :: 0 <= i < j < |r| ==> r[i].value >= r[j].value
  {
    var m := ChosenMetric(metric);
    var sorted := Ranking(rows, m);
    var n := SliceEnd(|sorted|, ChosenLimit(limit));
    seq(n, k requires 0 <= k < n =>
          Entry(k + 1, sorted[k].0, sorted[k].1.name, sorted[k].1.avatar, MetricValue(sorted[k].1.stats, m), m))
  }

  /** Each line of the leaderboard is a listed user with their own name, avatar and statistic. */
  lemma LeaderboardEntriesListed(rows: seq<(Id, UserDoc)>, metric: Option<Metric>, limit: Option<int>)
    ensures var r := Leaderboard(rows, metric, limit);
            forall k :: 0 <= k < |r| ==>
              exists row :: row in rows && row.0 == r[k].userId && row.1.name == r[k].name &&
                            row.1.avatar == r[k].avatar && MetricValue(row.1.stats, ChosenMetric(metric)) == r[k].value
  {
    var r := Leaderboard(rows, metric, limit);
    var sorted := Ranking(rows, ChosenMetric(metric));
    forall k | 0 <= k < |r|
      ensures exists row :: row in rows && row.0 == r[k].userId && row.1.name == r[k].name &&
                            row.1.avatar == r[k].avatar && MetricValue(row.1.stats, ChosenMetric(metric)) == r[k].value
    {
      assert sorted[k] in multiset(rows);
    }
  }

  /** Line `k` of the leaderboard is the user ranked `k`-th. */
  lemma LeaderboardFromRanking(rows: seq<(Id, UserDoc)>, metric: Option<Metric>, limit: Option<int>)
    ensures var r := Leaderboard(rows, metric, limit);
            var m := ChosenMetric(metric);
            var sorted := Ranking(rows, m);
            && |r| <= |sorted|
            && forall k :: 0 <= k < |r| ==> r[k].userId == sorted[k].0 && r[k].value == MetricValue(sorted[k].1.stats, m)
  {
  }

  /** The leaderboard shows the top: a listed user left off has a value no higher than anyone shown. */
  lemma LeaderboardShowsTop(rows: seq<(Id, UserDoc)>, metric: Option<Metric>, limit: Option<int>)
    ensures var r := Leaderboard(rows, metric, limit);
            forall row :: row in rows ==>
              (exists k :: 0 <= k < |r| && r[k].userId == row.0) ||
              (forall k :: 0 <= k < |r| ==> r[k].value >= MetricValue(row.1.stats, ChosenMetric(metric)))
  {
    var r := Leaderboard(rows, metric, limit);
    var m := ChosenMetric(metric);
    var sorted := Ranking(rows, m);
    LeaderboardFromRanking(rows, metric, limit);
    forall row | row in rows
      ensures (exists k :: 0 <= k < |r| && r[k].userId == row.0) ||
              (forall k :: 0 <= k < |r| ==> r[k].value >= MetricValue(row.1.stats, m))
    {
      assert row in multiset(sorted);
      var j :| 0 <= j < |sorted| && sorted[j] == row;
      if j < |r| {
        assert r[j].userId == row.0;
      } else {
        assert forall k :: 0 <= k < |r| ==> MetricValue(sorted[k].1.stats, m) >= MetricValue(sorted[j].1.stats, m);
      }
    }
  }

  /** `getLeaderboard`: the leaderboard of every user. */
  function GetLeaderboard(db: Db, metric: Option<Metric>, limit: Option<int>): (r: seq<Entry>)
    requires db.Valid()
    reads db
    ensures forall k :: 0 <= k < |r| ==>
              r[k].userId in db.users && r[k].value == MetricValue(db.users[r[k].userId].stats, ChosenMetric(metric))
    ensures forall i, j :: 0 <= i < j < |r| ==> r[i].value >= r[j].value
  {
    var rows := All(db.users, db.nextId);
    LeaderboardEntriesListed(rows, metric, limit);
    Leaderboard(rows, metric, limit)
  }

  /** No user is left off the leaderboard while someone with a lower value is on it. */
  lemma GetLeaderboardShowsTop(db: Db, metric: Option<Metric>, limit: Option<int>)
    requires db.Valid()
    ensures var r := GetLeaderboard(db, metric, limit);
            forall id :: id in db.users ==>
              (exists k :: 0 <= k < |r| && r[k].userId == id) ||
              (forall k :: 0 <= k < |r| ==> r[k].value >= MetricValue(db.users[id].stats, ChosenMetric(metric)))
  {
    LeaderboardShowsTop(All(db.users, db.nextId), metric, limit);
  }

  /** The leaderboard lists as many users as the chosen limit allows, out of every user there is. */
  lemma GetLeaderboardSize(db: Db, metric: Option<Metric>, limit: Option<int>)
    requires db.Valid()
    ensures var lim := ChosenLimit(limit);
            lim >= 0 ==> |GetLeaderboard(db, metric, limit)| == if lim <= |db.users| then lim else |db.users|
  {
    AllCountsTable(db.users, db.nextId);
  }
}
