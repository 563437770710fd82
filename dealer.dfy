/**
 * The dealer: seats two to four players, gives each thirteen cards from the
 * front of its deck, sorts every hand by suit and then value, and flags the
 * starting player (the holder of the Three of Diamonds, or failing that the
 * owner of the lowest card by value and then suit).
 */
module Dealers {
  import opened Js
  import opened Cards
  import opened Decks

  /** `compareCards`: negative when `a` is the lower card, by value first and then by suit. */
  function CompareCards(a: Card, b: Card): (r: int)
    ensures r == 0 <==> a.value == b.value && a.suit == b.suit
    ensures r < 0 <==> a.value < b.value || (a.value == b.value && SuitIndex(a.suit) < SuitIndex(b.suit))
  {
    if a.value != b.value then a.value - b.value
    else SuitIndex(a.suit) - SuitIndex(b.suit)
  }

  /** On well-formed cards `compareCards` is a strict total order: only a card equals itself. */
  lemma CompareCardsStrictTotalOrder(a: Card, b: Card, c: Card)
    requires WellFormed(a) && WellFormed(b) && WellFormed(c)
    ensures CompareCards(a, b) == 0 <==> a == b
    ensures CompareCards(a, b) < 0 <==> CompareCards(b, a) > 0
    ensures CompareCards(a, b) < 0 && CompareCards(b, c) < 0 ==> CompareCards(a, c) < 0
  {
    RankIndexInverse();
  }

  /** The comparator `sortCards` hands to `sort`: suit order first, then ascending value. */
  function HandOrder(a: Card, b: Card): (r: int)
    ensures r < 0 <==> SuitIndex(a.suit) < SuitIndex(b.suit) || (a.suit == b.suit && a.value < b.value)
    ensures r == 0 <==> a.suit == b.suit && a.value == b.value
  {
    if a.suit != b.suit then SuitIndex(a.suit) - SuitIndex(b.suit)
    else a.value - b.value
  }

  /** A hand in the order `sortCards` produces. */
  ghost predicate HandSorted(h: seq<Card>)
  {
    forall i, j :: 0 <= i < j < |h| ==> HandOrder(h[i], h[j]) <= 0
  }

  /** The hand order is total and transitive. */
  lemma HandOrderTotal(a: Card, b: Card, c: Card)
    ensures HandOrder(a, b) > 0 ==> HandOrder(b, a) < 0
    ensures HandOrder(a, b) <= 0 && HandOrder(b, c) <= 0 ==> HandOrder(a, c) <= 0
  {
  }
  /** Each card is in hand order with the next one. */
  ghost predicate Ascending(h: seq<Card>)
  {
    |h| < 2 || (HandOrder(h[0], h[1]) <= 0 && Ascending(h[1..]))
  }

  /** Order between neighbours gives order between any two cards. */
  lemma {:induction false} AscendingSorted(h: seq<Card>)
    requires Ascending(h)
    ensures HandSorted(h)
  {
    if |h| >= 2 {
      var tail := h[1..];
      AscendingSorted(tail);
      forall j | 1 < j < |h| ensures HandOrder(h[0], h[j]) <= 0 {
        assert HandOrder(tail[0], tail[j - 1]) <= 0;
        HandOrderTotal(h[0], h[1], h[j]);
      }
      forall i, j | 0 <= i < j < |h| ensures HandOrder(h[i], h[j]) <= 0 {
        if i > 0 {
          assert HandOrder(tail[i - 1], tail[j - 1]) <= 0;
        }
      }
    }
  }

  /** Inserts `c` into a sorted hand in front of the first card it does not follow. */
  function InsertCard(c: Card, h: seq<Card>): (r: seq<Card>)
    requires Ascending(h)
    ensures Ascending(r)
    ensures multiset(r) == multiset(h) + multiset{c}
    ensures |r| == |h| + 1
    ensures r[0] == c || (|h| > 0 && r[0] == h[0])
  {
    if |h| == 0 || HandOrder(c, h[0]) <= 0 then
      var r := [c] + h;
      assert r[1..] == h;
      r
    else
      assert h == [h[0]] + h[1..];
      var rest := InsertCard(c, h[1..]);
      HandOrderTotal(c, h[0], c);
      var r := [h[0]] + rest;
      assert r[1..] == rest;
      r
  }

  /** `sortCards`: the dealt cards rearranged into hand order. */
  function SortCards(cards: seq<Card>): (r: seq<Card>)
    ensures Ascending(r)
    ensures multiset(r) == multiset(cards)
    ensures |r| == |cards|
  {
    if |cards| == 0 then []
    else
      assert cards == [cards[0]] + cards[1..];
      InsertCard(cards[0], SortCards(cards[1..]))
  }

  /** The identifier the dealer gives the seat `k` (from 0). */
  function SeatId(k: nat): string
  {
    "player-" + Decimal(k + 1)
  }

  /** The player seated `i`-th (from 0): named after the seat, holding `cards` in hand order, not yet flagged. */
  function Seat(i: nat, cards: seq<Card>): (p: Player)
    ensures p.id == SeatId(i) && p.name == "Player " + Decimal(i + 1)
    ensures Ascending(p.cards) && multiset(p.cards) == multiset(cards) && |p.cards| == |cards|
    ensures !p.isStartingPlayer
  {
    Player(SeatId(i), "Player " + Decimal(i + 1), SortCards(cards), false)
  }

  /** The first `n` seats dealt from `d`: seat `k` receives the `k`-th run of thirteen cards. */
  function Seated(d: seq<Card>, n: nat): (ps: seq<Player>)
    requires 13 * n <= |d|
    ensures |ps| == n
  {
    Runs(d, n, Seat)
  }

  /** The first `n` runs of thirteen cards of `d`, each handed with its index to `f`. */
  function Runs<T>(d: seq<Card>, n: nat, f: (nat, seq<Card>) -> T): (r: seq<T>)
    requires 13 * n <= |d|
    ensures |r| == n
    ensures forall k :: 0 <= k < n ==> r[k] == f(k, d[13 * k..13 * k + 13])
  {
    seq(n, k requires 0 <= k < n => f(k, d[13 * k..13 * k + 13]))
  }

  /** One more run appends one more element. */
  lemma RunsSnoc<T>(d: seq<Card>, i: nat, f: (nat, seq<Card>) -> T)
    requires 13 * i + 13 <= |d|
    ensures Runs(d, i + 1, f) == Runs(d, i, f) + [f(i, d[13 * i..13 * i + 13])]
  {
    var a := Runs(d, i + 1, f);
    var b := Runs(d, i, f) + [f(i, d[13 * i..13 * i + 13])];
    assert forall k :: 0 <= k < i ==> b[k] == Runs(d, i, f)[k];
  }

  /** Every card held by the players, seat after seat. */
  function AllCards(ps: seq<Player>): seq<Card>
  {
    if |ps| == 0 then [] else AllCards(ps[..|ps| - 1]) + ps[|ps| - 1].cards
  }

  predicate IsThreeOfDiamonds(c: Card)
  {
    c.suit == Diamonds && c.rank == Three
  }

  /** `player.cards.find(...)` found the Three of Diamonds. */
  predicate HoldsThreeOfDiamonds(p: Player)
  {
    Find(p.cards, IsThreeOfDiamonds).Some?
  }

  /** The cards of seat `i`, each tagged with its owner. */
  function Tag(i: nat, cs: seq<Card>): (t: seq<(nat, Card)>)
    ensures |t| == |cs|
    ensures forall k :: 0 <= k < |cs| ==> t[k] == (i, cs[k])
  {
    seq(|cs|, k requires 0 <= k < |cs| => (i, cs[k]))
  }

  /** Every card of every player tagged with its owner, in the order the scan visits them. */
  function Tagged(ps: seq<Player>): seq<(nat, Card)>
  {
    if |ps| == 0 then [] else Tagged(ps[..|ps| - 1]) + Tag(|ps| - 1, ps[|ps| - 1].cards)
  }

  /** The tagged scan holds exactly the pairs (owner, card) of cards in play. */
  lemma {:induction false} TaggedMembers(ps: seq<Player>)
    ensures forall e :: e in Tagged(ps) <==> e.0 < |ps| && e.1 in ps[e.0].cards
  {
    if |ps| > 0 {
      var init := ps[..|ps| - 1];
      var n := |ps| - 1;
      TaggedMembers(init);
      var last := Tag(n, ps[n].cards);
      forall e: (nat, Card) ensures e in last <==> e.0 == n && e.1 in ps[n].cards {
        if e in last {
          var k :| 0 <= k < |last| && last[k] == e;
        }
        if e.0 == n && e.1 in ps[n].cards {
          var k :| 0 <= k < |ps[n].cards| && ps[n].cards[k] == e.1;
          assert last[k] == e;
        }
      }
      assert forall j :: 0 <= j < |init| ==> init[j] == ps[j];
    }
  }

  /** With no card in any hand the scan visits nothing. */
  lemma {:induction false} TaggedEmpty(ps: seq<Player>)
    requires forall k :: 0 <= k < |ps| ==> |ps[k].cards| == 0
    ensures Tagged(ps) == []
  {
    if |ps| > 0 {
      TaggedEmpty(ps[..|ps| - 1]);
    }
  }

  /**
   * The running minimum of the second scan of `determineStartingPlayer`:
   * a card replaces the current lowest only when `compareCards` finds it
   * strictly lower.
   */
  function Lowest(t: seq<(nat, Card)>): (r: Option<(nat, Card)>)
    ensures r.None? <==> |t| == 0
  {
    if |t| == 0 then None
    else
      var best := Lowest(t[..|t| - 1]);
      var e := t[|t| - 1];
      if best.None? || CompareCards(e.1, best.value.1) < 0 then Some(e) else best
  }

  /** The running minimum is an entry of the scan, and nothing in the scan is lower. */
  lemma {:induction false} LowestIsMinimum(t: seq<(nat, Card)>)
    requires |t| > 0
    ensures Lowest(t).value in t
    ensures forall j :: 0 <= j < |t| ==> CompareCards(Lowest(t).value.1, t[j].1) <= 0
  {
    var init := t[..|t| - 1];
    var e := t[|t| - 1];
    if |init| > 0 {
      LowestIsMinimum(init);
      assert forall j :: 0 <= j < |init| ==> t[j] == init[j];
      var best := Lowest(init).value;
      assert best in t by {
        var k :| 0 <= k < |init| && init[k] == best;
        assert t[k] == best;
      }
    }
  }

  /** Entry `k` of the scan is `e`, and every entry scanned before it is strictly higher than `e`. */
  ghost predicate FirstLowestAt(t: seq<(nat, Card)>, k: int, e: (nat, Card))
  {
    0 <= k < |t| && t[k] == e && forall j :: 0 <= j < k ==> CompareCards(t[j].1, e.1) > 0
  }

  /** The running minimum is the first lowest entry: every entry scanned before it is strictly higher. */
  lemma {:induction false} LowestIsFirst(t: seq<(nat, Card)>)
    requires |t| > 0
    ensures exists k :: FirstLowestAt(t, k, Lowest(t).value)
  {
    var init := t[..|t| - 1];
    var e := t[|t| - 1];
    if |init| == 0 {
      assert FirstLowestAt(t, 0, Lowest(t).value);
    } else {
      LowestIsFirst(init);
      var best := Lowest(init).value;
      var k :| FirstLowestAt(init, k, best);
      assert forall j :: 0 <= j < |init| ==> t[j] == init[j];
      if CompareCards(e.1, best.1) < 0 {
        LowestIsMinimum(init);
        LowestReplaced(t, best);
        assert Lowest(t).value == e;
        assert FirstLowestAt(t, |t| - 1, Lowest(t).value);
      } else {
        assert Lowest(t).value == best;
        assert FirstLowestAt(t, k, best);
      }
    }
  }

  /** A last entry strictly lower than the minimum of the entries before it is the first lowest entry. */
  lemma LowestReplaced(t: seq<(nat, Card)>, best: (nat, Card))
    requires |t| > 1
    requires forall j :: 0 <= j < |t| - 1 ==> CompareCards(best.1, t[j].1) <= 0
    requires CompareCards(t[|t| - 1].1, best.1) < 0
    ensures FirstLowestAt(t, |t| - 1, t[|t| - 1])
  {
  }

  /**
   * The seat `determineStartingPlayer` flags: the first player holding the
   * Three of Diamonds, or else the owner of the lowest card; none when no
   * player holds any card.
   */
  function StartingSeat(ps: seq<Player>): (r: Option<nat>)
    ensures r.Some? ==> r.value < |ps|
  {
    var k := FindIndex(ps, HoldsThreeOfDiamonds);
    if k >= 0 then Some(k)
    else match Lowest(Tagged(ps))
      case None => None
      case Some(e) =>
        LowestIsMinimum(Tagged(ps));
        TaggedMembers(ps);
        Some(e.0)
  }

  /** The players with the flag of `seat` (if any) set. */
  function MarkStarting(ps: seq<Player>, seat: Option<nat>): (r: seq<Player>)
    ensures |r| == |ps|
    ensures forall k :: 0 <= k < |ps| ==> r[k].(isStartingPlayer := ps[k].isStartingPlayer) == ps[k]
    ensures forall k :: 0 <= k < |ps| ==> (r[k].isStartingPlayer <==> ps[k].isStartingPlayer || seat == Some(k))
  {
    if seat.Some? && seat.value < |ps| then ps[seat.value := ps[seat.value].(isStartingPlayer := true)]
    else ps
  }

  /** When some player holds the Three of Diamonds, the first such player starts. */
  lemma StartingSeatThreeOfDiamonds(ps: seq<Player>, k: nat)
    requires k < |ps| && HoldsThreeOfDiamonds(ps[k])
    requires forall j :: 0 <= j < k ==> !HoldsThreeOfDiamonds(ps[j])
    ensures StartingSeat(ps) == Some(k)
    ensures exists c :: c in ps[k].cards && c.suit == Diamonds && c.rank == Three
  {
    var c := Find(ps[k].cards, IsThreeOfDiamonds).value;
    assert c in ps[k].cards;
  }

  /**
   * When nobody holds the Three of Diamonds, the starting seat owns a card
   * that is not above any card in play.
   */
  lemma {:induction false} StartingSeatLowestCard(ps: seq<Player>)
    requires forall k :: 0 <= k < |ps| ==> !HoldsThreeOfDiamonds(ps[k])
    requires exists k :: 0 <= k < |ps| && |ps[k].cards| > 0
    ensures StartingSeat(ps).Some?
    ensures exists c :: c in ps[StartingSeat(ps).value].cards &&
              forall k, d :: 0 <= k < |ps| && d in ps[k].cards ==> CompareCards(c, d) <= 0
  {
    TaggedMembers(ps);
    var k :| 0 <= k < |ps| && |ps[k].cards| > 0;
    assert (k, ps[k].cards[0]) in Tagged(ps);
    LowestIsMinimum(Tagged(ps));
    var e := Lowest(Tagged(ps)).value;
    assert e.1 in ps[e.0].cards;
    forall j, d | 0 <= j < |ps| && d in ps[j].cards ensures CompareCards(e.1, d) <= 0 {
      assert (j, d) in Tagged(ps);
      var m :| 0 <= m < |Tagged(ps)| && Tagged(ps)[m] == (j, d);
    }
  }

  /** No starting seat is chosen only when no player holds a card. */
  lemma {:induction false} NoStartingSeatOnlyWithoutCards(ps: seq<Player>)
    ensures StartingSeat(ps).None? <==> forall k :: 0 <= k < |ps| ==> |ps[k].cards| == 0
  {
    if exists k :: 0 <= k < |ps| && |ps[k].cards| > 0 {
      TaggedMembers(ps);
      var k :| 0 <= k < |ps| && |ps[k].cards| > 0;
      assert (k, ps[k].cards[0]) in Tagged(ps);
    } else {
      forall k | 0 <= k < |ps| ensures !HoldsThreeOfDiamonds(ps[k]) {
        assert |ps[k].cards| == 0;
      }
      TaggedEmpty(ps);
    }
  }

  /** The player carries the starting flag. */
  predicate IsStartingPlayer(p: Player)
  {
    p.isStartingPlayer
  }

  /** Flagging a seat among unflagged players leaves exactly that one flagged and changes nothing else. */
  lemma MarkStartingExactlyOne(ps: seq<Player>, s: nat)
    requires s < |ps|
    requires forall k :: 0 <= k < |ps| ==> !ps[k].isStartingPlayer
    ensures forall k :: 0 <= k < |ps| ==>
              (MarkStarting(ps, Some(s))[k].isStartingPlayer <==> k == s)
    ensures forall k :: 0 <= k < |ps| ==>
              MarkStarting(ps, Some(s))[k] == ps[k].(isStartingPlayer := k == s)
    ensures FindIndex(MarkStarting(ps, Some(s)), IsStartingPlayer) == s
  {
  }

  /** The cards of the first `n` seats are, as a multiset, the first `13 * n` cards of the deck. */
  lemma {:induction false} SeatedCards(d: seq<Card>, n: nat)
    requires 13 * n <= |d|
    ensures multiset(AllCards(Seated(d, n))) == multiset(d[..13 * n])
  {
    if n > 0 {
      var i := n - 1;
      var ps := Seated(d, n);
      SeatedCards(d, i);
      SeatedSnoc(d, i);
      assert ps[..i] == Seated(d, i);
      assert ps[i] == Seat(i, d[13 * i..13 * i + 13]);
      CardsStep(ps, d, i);
      assert 13 * i + 13 == 13 * n;
    }
  }

  /** Adding a seat holding the next thirteen cards of the deck adds those cards. */
  lemma CardsStep(ps: seq<Player>, d: seq<Card>, i: nat)
    requires |ps| == i + 1 && 13 * i + 13 <= |d|
    requires multiset(AllCards(ps[..i])) == multiset(d[..13 * i])
    requires multiset(ps[i].cards) == multiset(d[13 * i..13 * i + 13])
    ensures multiset(AllCards(ps)) == multiset(d[..13 * i + 13])
  {
    assert AllCards(ps) == AllCards(ps[..i]) + ps[i].cards;
    assert d[..13 * i + 13] == d[..13 * i] + d[13 * i..13 * i + 13];
  }

  /**
   * Seat `k` of a deal holds thirteen cards in hand order: the `k`-th block
   * of thirteen from the front of the deck, rearranged.
   */
  lemma DealtSeat(d: seq<Card>, n: nat, k: nat)
    requires 13 * n <= |d| && k < n
    ensures Seated(d, n)[k].id == SeatId(k)
    ensures |Seated(d, n)[k].cards| == 13
    ensures HandSorted(Seated(d, n)[k].cards)
    ensures multiset(Seated(d, n)[k].cards) == multiset(d[13 * k..13 * k + 13])
    ensures !Seated(d, n)[k].isStartingPlayer
  {
    assert Seated(d, n)[k] == Seat(k, d[13 * k..13 * k + 13]);
    AscendingSorted(Seated(d, n)[k].cards);
  }

  /** Dealing from a deck without repeated cards never deals a card twice across the hands. */
  lemma DealtCardsDistinct(d: seq<Card>, n: nat)
    requires 13 * n <= |d|
    requires NoRepeats(d)
    ensures NoRepeats(AllCards(Seated(d, n)))
  {
    SeatedCards(d, n);
    PrefixNoRepeats(AllCards(Seated(d, n)), d, 13 * n);
  }

  /** A deal to at least one seat always flags a seat. */
  lemma DealPicksStartingSeat(d: seq<Card>, n: nat)
    requires 1 <= n && 13 * n <= |d|
    ensures StartingSeat(Seated(d, n)).Some?
  {
    var ps := Seated(d, n);
    assert |ps[0].cards| == 13;
    NoStartingSeatOnlyWithoutCards(ps);
  }

  /** Without a Three of Diamonds in play, the starting seat is the owner found by the lowest-card scan. */
  lemma StartingSeatByScan(ps: seq<Player>)
    requires forall k :: 0 <= k < |ps| ==> !HoldsThreeOfDiamonds(ps[k])
    ensures StartingSeat(ps) ==
              var low := Lowest(Tagged(ps));
              if low.None? then None else Some(low.value.0)
  {
  }

  lemma TaggedSnoc(ps: seq<Player>, i: nat)
    requires i < |ps|
    ensures Tagged(ps[..i + 1]) == Tagged(ps[..i]) + Tag(i, ps[i].cards)
  {
    assert ps[..i + 1][..i] == ps[..i];
  }

  lemma TagSnoc(i: nat, cs: seq<Card>, c: nat)
    requires c < |cs|
    ensures Tag(i, cs[..c + 1]) == Tag(i, cs[..c]) + [(i, cs[c])]
  {
  }

  lemma LowestSnoc(t: seq<(nat, Card)>, e: (nat, Card))
    ensures Lowest(t + [e]) ==
              var best := Lowest(t);
              if best.None? || CompareCards(e.1, best.value.1) < 0 then Some(e) else best
  {
    assert (t + [e])[..|t|] == t;
  }

  lemma SeatedSnoc(d: seq<Card>, i: nat)
    requires 13 * i + 13 <= |d|
    ensures Seated(d, i + 1) == Seated(d, i) + [Seat(i, d[13 * i..13 * i + 13])]
  {
    RunsSnoc(d, i, Seat);
  }

  /** The seat at which a deck of `len` cards runs short is the number of whole hands it holds. */
  lemma ShortSeat(len: nat, i: nat)
    requires 13 * i <= len < 13 * (i + 1)
    ensures i == len / 13
  {
  }

  /** The scan's two variables hold the owner and the card of the running minimum of `t`. */
  ghost predicate Tracks(t: seq<(nat, Card)>, startingPlayer: Option<nat>, lowestCard: Option<Card>)
  {
    && (startingPlayer.None? <==> lowestCard.None?)
    && Lowest(t) == if lowestCard.None? then None else Some((startingPlayer.value, lowestCard.value))
  }

  class Dealer {
    const deck: Deck

    ghost predicate Valid()
      reads deck
    {
      deck.Valid()
    }

    /** A new dealer owns a freshly initialised and shuffled deck. */
    constructor ()
      ensures Valid() && fresh(deck)
      ensures |deck.cards| == 52 && multiset(deck.cards) == multiset(FullDeck())
    {
      deck := new Deck();
    }

    /**
     * `dealToPlayers`: throws for fewer than two or more than four players;
     * otherwise deals thirteen cards to each seat in turn, so that a deck
     * running short throws only after the earlier seats have taken theirs.
     */
    method DealToPlayers(playerCount: int) returns (r: Result<seq<Player>, GameError>)
      requires Valid()
      modifies deck
      ensures Valid()
      ensures playerCount < 2 || playerCount > 4 ==>
                r == Err(InvalidPlayerCount) && deck.cards == old(deck.cards)
      ensures 2 <= playerCount <= 4 && |old(deck.cards)| < 13 * playerCount ==>
                var seated := |old(deck.cards)| / 13;
                && r == Err(InsufficientCards(13, |old(deck.cards)| - 13 * seated))
                && deck.cards == old(deck.cards)[13 * seated..]
      ensures 2 <= playerCount <= 4 && 13 * playerCount <= |old(deck.cards)| ==>
                var seated := Seated(old(deck.cards), playerCount);
                && r == Ok(MarkStarting(seated, StartingSeat(seated)))
                && deck.cards == old(deck.cards)[13 * playerCount..]
    {
      if playerCount < 2 || playerCount > 4 {
        return Err(InvalidPlayerCount);
      }
      ghost var d := deck.cards;
      var cardsPerPlayer := 13;
      var players: seq<Player> := [];
      for i := 0 to playerCount
        invariant deck.Valid()
        invariant 13 * i <= |d|
        invariant deck.cards == d[13 * i..]
        invariant players == Seated(d, i)
      {
        var cards := deck.Deal(cardsPerPlayer);
        if cards.Err? {
          ShortSeat(|d|, i);
          return Err(cards.error);
        }
        assert cards.value == d[13 * i..13 * i + 13];
        SeatedSnoc(d, i);
        players := players + [Seat(i, cards.value)];
        assert deck.cards == d[13 * i + 13..];
      }
      players := DetermineStartingPlayer(players);
      return Ok(players);
    }

    /** `determineStartingPlayer`: the two scans, returning the players with one flag set. */
    method DetermineStartingPlayer(players: seq<Player>) returns (r: seq<Player>)
      ensures r == MarkStarting(players, StartingSeat(players))
    {
      for i := 0 to |players|
        invariant forall k :: 0 <= k < i ==> !HoldsThreeOfDiamonds(players[k])
      {
        var threeOfDiamonds := Find(players[i].cards, IsThreeOfDiamonds);
        if threeOfDiamonds.Some? {
          StartingSeatThreeOfDiamonds(players, i);
          return players[i := players[i].(isStartingPlayer := true)];
        }
      }
      var startingPlayer := LowestOwner(players);
      StartingSeatByScan(players);
      r := players;
      if startingPlayer.Some? {
        r := players[startingPlayer.value := players[startingPlayer.value].(isStartingPlayer := true)];
      }
    }

    /** The second scan of `determineStartingPlayer`: the owner of the first lowest card. */
    method LowestOwner(players: seq<Player>) returns (startingPlayer: Option<nat>)
      ensures startingPlayer == var low := Lowest(Tagged(players));
                                if low.None? then None else Some(low.value.0)
    {
      startingPlayer := None;
      var lowestCard: Option<Card> := None;
      for i := 0 to |players|
        invariant Tracks(Tagged(players[..i]), startingPlayer, lowestCard)
      {
        TaggedSnoc(players, i);
        startingPlayer, lowestCard := LowestInHand(i, players[i].cards, Tagged(players[..i]), startingPlayer, lowestCard);
      }
      assert players[..|players|] == players;
    }

    /** The inner loop of the second scan: the cards of seat `i` pass under the running minimum. */
    method LowestInHand(i: nat, hand: seq<Card>, ghost seen: seq<(nat, Card)>,
                        startingPlayer0: Option<nat>, lowestCard0: Option<Card>)
      returns (startingPlayer: Option<nat>, lowestCard: Option<Card>)
      requires Tracks(seen, startingPlayer0, lowestCard0)
      ensures Tracks(seen + Tag(i, hand), startingPlayer, lowestCard)
    {
      startingPlayer, lowestCard := startingPlayer0, lowestCard0;
      assert seen + Tag(i, hand[..0]) == seen;
      for c := 0 to |hand|
        invariant Tracks(seen + Tag(i, hand[..c]), startingPlayer, lowestCard)
      {
        var card := hand[c];
        TagSnoc(i, hand, c);
        assert seen + Tag(i, hand[..c + 1]) == (seen + Tag(i, hand[..c])) + [(i, card)];
        LowestSnoc(seen + Tag(i, hand[..c]), (i, card));
        if lowestCard.None? || CompareCards(card, lowestCard.value) < 0 {
          lowestCard := Some(card);
          startingPlayer := Some(i);
        }
      }
      assert hand[..|hand|] == hand;
    }

    /** `resetDeck`: the deck is rebuilt and reshuffled. */
    method ResetDeck()
      modifies deck
      ensures Valid()
      ensures |deck.cards| == 52 && multiset(deck.cards) == multiset(FullDeck())
    {
      deck.Reset();
    }
  }
}
