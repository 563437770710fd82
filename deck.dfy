/**
 * The 52-card deck: built suit by suit, shuffled by swapping in place with an
 * arbitrarily chosen earlier-or-equal index, and dealt from the front.
 */
module Decks {
  import opened Js
  import opened Cards

  /** The strength of a rank: Three is 3, ..., Ace is 14, and the Two is 15. */
  function RankValue(r: Rank): (v: int)
    ensures v == RankIndex(r) + 3
    ensures 3 <= v <= 15
    ensures r == Two <==> v == 15
  {
    match r
    case Three => 3
    case Four => 4
    case Five => 5
    case Six => 6
    case Seven => 7
    case Eight => 8
    case Nine => 9
    case Ten => 10
    case Jack => 11
    case Queen => 12
    case King => 13
    case Ace => 14
    case Two => 15
  }

  /** A card whose value is the one its rank carries. */
  predicate WellFormed(c: Card)
  {
    c.value == RankValue(c.rank)
  }

  /** The card the initialisation loops push in position `k`. */
  function CardAt(k: nat): Card
    requires k < 52
  {
    var rank := Ranks[k % 13];
    Card(Suits[k / 13], rank, RankValue(rank))
  }

  /** The freshly initialised deck: every suit in order, every rank within it. */
  function FullDeck(): (d: seq<Card>)
    ensures |d| == 52
    ensures forall k :: 0 <= k < 52 ==> d[k] == CardAt(k)
  {
    seq(52, k requires 0 <= k < 52 => CardAt(k))
  }

  /** No card occurs more than once. */
  ghost predicate NoRepeats(s: seq<Card>)
  {
    forall c :: multiset(s)[c] <= 1
  }

  /** Cards taken, as a multiset, from a sequence without repeats have no repeats. */
  lemma FewerNoRepeats(s: seq<Card>, t: seq<Card>)
    requires multiset(s) <= multiset(t) && NoRepeats(t)
    ensures NoRepeats(s)
  {
    forall c ensures multiset(s)[c] <= 1 {
      assert multiset(s)[c] <= multiset(t)[c];
    }
  }

  lemma CardAtInjective(i: nat, j: nat)
    requires i < 52 && j < 52 && CardAt(i) == CardAt(j)
    ensures i == j
  {
    SuitIndexInverse();
    RankIndexInverse();
    assert SuitIndex(Suits[i / 13]) == i / 13;
    assert SuitIndex(Suits[j / 13]) == j / 13;
    assert RankIndex(Ranks[i % 13]) == i % 13;
    assert RankIndex(Ranks[j % 13]) == j % 13;
  }

  /** A sequence whose elements differ pairwise holds each card at most once. */
  lemma {:induction false} PairwiseDistinctNoRepeats(s: seq<Card>)
    requires forall i, j :: 0 <= i < j < |s| ==> s[i] != s[j]
    ensures NoRepeats(s)
  {
    if |s| > 0 {
      var init := s[..|s| - 1];
      PairwiseDistinctNoRepeats(init);
      assert s == init + [s[|s| - 1]];
      assert s[|s| - 1] !in init;
    }
  }

  /** The initialised deck holds 52 pairwise distinct cards. */
  lemma FullDeckNoRepeats()
    ensures forall i, j :: 0 <= i < j < 52 ==> FullDeck()[i] != FullDeck()[j]
    ensures NoRepeats(FullDeck())
  {
    forall i, j | 0 <= i < j < 52 ensures FullDeck()[i] != FullDeck()[j] {
      if FullDeck()[i] == FullDeck()[j] {
        CardAtInjective(i, j);
      }
    }
    PairwiseDistinctNoRepeats(FullDeck());
  }

  /** The initialised deck holds exactly the well-formed cards: one per suit and rank. */
  lemma FullDeckComplete()
    ensures forall c :: c in FullDeck() <==> WellFormed(c)
    ensures forall s: Suit, r: Rank :: Card(s, r, RankValue(r)) in FullDeck()
  {
    SuitIndexInverse();
    RankIndexInverse();
    forall c | WellFormed(c) ensures c in FullDeck() {
      var k := 13 * SuitIndex(c.suit) + RankIndex(c.rank);
      assert k / 13 == SuitIndex(c.suit) && k % 13 == RankIndex(c.rank);
      assert FullDeck()[k] == c;
    }
    forall s: Suit, r: Rank ensures Card(s, r, RankValue(r)) in FullDeck() {
      assert WellFormed(Card(s, r, RankValue(r)));
    }
  }

  /** A deck whose cards are all drawn, without repetition, from the full set. */
  lemma {:induction false} DrawnNoRepeats(s: seq<Card>)
    requires multiset(s) <= multiset(FullDeck())
    ensures NoRepeats(s)
    ensures forall c :: c in s ==> WellFormed(c)
  {
    FullDeckNoRepeats();
    FullDeckComplete();
    forall c | c in s ensures WellFormed(c) {
      assert c in multiset(s);
    }
  }

  /** A sequence with the same cards as a prefix of a sequence without repeats has none. */
  lemma PrefixNoRepeats(s: seq<Card>, t: seq<Card>, m: nat)
    requires m <= |t| && multiset(s) == multiset(t[..m]) && NoRepeats(t)
    ensures NoRepeats(s)
  {
    assert t == t[..m] + t[m..];
    assert multiset(t) == multiset(t[..m]) + multiset(t[m..]);
    FewerNoRepeats(s, t);
  }

  /** Position `13 * si + ri` of the deck holds rank `ri` of suit `si`. */
  lemma CardAtSuitRank(si: nat, ri: nat)
    requires si < 4 && ri < 13
    ensures CardAt(13 * si + ri) == Card(Suits[si], Ranks[ri], RankValue(Ranks[ri]))
  {
    var k := 13 * si + ri;
    assert k / 13 == si && k % 13 == ri;
  }

  /** The card pushed for suit `si` and rank `ri` extends the deck built so far by one position. */
  lemma FullDeckNext(si: nat, ri: nat)
    requires si < 4 && ri < 13
    ensures FullDeck()[..13 * si + ri + 1] ==
              FullDeck()[..13 * si + ri] + [Card(Suits[si], Ranks[ri], RankValue(Ranks[ri]))]
  {
    PrefixSnoc(FullDeck(), 13 * si + ri);
    CardAtSuitRank(si, ri);
  }

  /** A prefix one longer is the shorter prefix followed by the next element. */
  lemma PrefixSnoc(s: seq<Card>, k: nat)
    requires k < |s|
    ensures s[..k + 1] == s[..k] + [s[k]]
  {
  }

  class Deck {
    var cards: seq<Card>

    /** Every card still in the deck comes from the full set, at most once each. */
    ghost predicate Valid()
      reads this
    {
      multiset(cards) <= multiset(FullDeck())
    }

    /** A new deck is initialised and shuffled. */
    constructor ()
      ensures Valid()
      ensures |cards| == 52 && multiset(cards) == multiset(FullDeck())
    {
      cards := [];
      new;
      InitializeDeck();
      Shuffle();
    }

    /** Pushes the 52 cards, suit by suit and rank by rank, after the current ones. */
    method InitializeDeck()
      modifies this
      ensures cards == old(cards) + FullDeck()
    {
      for si := 0 to 4
        invariant cards == old(cards) + FullDeck()[..13 * si]
      {
        for ri := 0 to 13
          invariant cards == old(cards) + FullDeck()[..13 * si + ri]
        {
          var rank := Ranks[ri];
          FullDeckNext(si, ri);
          cards := cards + [Card(Suits[si], rank, RankValue(rank))];
        }
        assert 13 * si + 13 == 13 * (si + 1);
      }
    }

    /**
     * Walks `i` down from the last index to 1, swapping position `i` with an
     * arbitrary position `j` in `[0, i]` (the source draws it at random).
     */
    method Shuffle()
      modifies this
      ensures |cards| == |old(cards)|
      ensures multiset(cards) == multiset(old(cards))
    {
      var i := |cards| - 1;
      while i > 0
        invariant |cards| == |old(cards)|
        invariant i < |cards|
        invariant multiset(cards) == multiset(old(cards))
      {
        var j :| 0 <= j <= i;
        cards := cards[i := cards[j]][j := cards[i]];
        i := i - 1;
      }
    }

    /**
     * Removes and returns the first `count` cards; throws, leaving the deck
     * as it was, when fewer than `count` remain. A negative count removes
     * nothing, as `splice` does.
     */
    method Deal(count: int) returns (r: Result<seq<Card>, GameError>)
      requires Valid()
      modifies this
      ensures Valid()
      ensures count > |old(cards)| ==>
                r == Err(InsufficientCards(count, |old(cards)|)) && cards == old(cards)
      ensures count <= |old(cards)| ==>
                var k := if count < 0 then 0 else count;
                && r == Ok(old(cards)[..k])
                && cards == old(cards)[k..]
                && |cards| == |old(cards)| - k
    {
      if count > |cards| {
        return Err(InsufficientCards(count, |cards|));
      }
      var k := if count < 0 then 0 else count;
      assert cards == cards[..k] + cards[k..];
      r := Ok(cards[..k]);
      cards := cards[k..];
    }

    /** A copy of the remaining cards; the deck is left as it is. */
    method GetCards() returns (r: seq<Card>)
      ensures r == cards
    {
      r := cards;
    }

    /** The number of cards left to deal. */
    method GetRemainingCount() returns (n: nat)
      ensures n == |cards|
    {
      n := |cards|;
    }

    /** Discards what is left, rebuilds the 52 cards and shuffles them. */
    method Reset()
      modifies this
      ensures Valid()
      ensures |cards| == 52 && multiset(cards) == multiset(FullDeck())
    {
      cards := [];
      InitializeDeck();
      Shuffle();
    }
  }
}
