/**
 * The card-game vocabulary shared by the deck, the dealer and the game
 * manager: suits, ranks, cards, seated players and the session snapshot.
 */
module Cards {

  /** The four suits, in declaration order. */
  datatype Suit = Diamonds | Clubs | Hearts | Spades

  /** The thirteen ranks, in declaration order (the Two comes last). */
  datatype Rank = Three | Four | Five | Six | Seven | Eight | Nine | Ten
                | Jack | Queen | King | Ace | Two

  /** A card; `value` is the rank strength used for comparisons. */
  datatype Card = Card(suit: Suit, rank: Rank, value: int)

  /** A seated player with a hand of cards. */
  datatype Player = Player(id: string, name: string, cards: seq<Card>, isStartingPlayer: bool)

  /** The session snapshot the game manager owns and hands out. */
  datatype GameState = GameState(players: seq<Player>, deck: seq<Card>,
                                 currentPlayerIndex: int, gameStarted: bool)

  /** The errors the in-memory card layer throws. */
  datatype GameError =
    | InvalidPlayerCount
    | InsufficientCards(requested: int, remaining: nat)
    | GameAlreadyInProgress
    | GameNotStarted

  /** The suits in the order the enum lists them. */
  const Suits: seq<Suit> := [Diamonds, Clubs, Hearts, Spades]

  /** The ranks in the order the enum lists them. */
  const Ranks: seq<Rank> := [Three, Four, Five, Six, Seven, Eight, Nine, Ten,
                             Jack, Queen, King, Ace, Two]

  /** The position of a suit in `Suits`. */
  function SuitIndex(s: Suit): (k: nat)
    ensures k < 4
  {
    match s
    case Diamonds => 0
    case Clubs => 1
    case Hearts => 2
    case Spades => 3
  }

  /** The position of a rank in `Ranks`. */
  function RankIndex(r: Rank): (k: nat)
    ensures k < 13
  {
    match r
    case Three => 0
    case Four => 1
    case Five => 2
    case Six => 3
    case Seven => 4
    case Eight => 5
    case Nine => 6
    case Ten => 7
    case Jack => 8
    case Queen => 9
    case King => 10
    case Ace => 11
    case Two => 12
  }

  /** `SuitIndex` and `Suits` are inverse to each other. */
  lemma SuitIndexInverse()
    ensures forall s :: Suits[SuitIndex(s)] == s
    ensures forall k :: 0 <= k < 4 ==> SuitIndex(Suits[k]) == k
  {
  }

  /** `RankIndex` and `Ranks` are inverse to each other. */
  lemma RankIndexInverse()
    ensures forall r :: Ranks[RankIndex(r)] == r
    ensures forall k :: 0 <= k < 13 ==> RankIndex(Ranks[k]) == k
  {
  }
}
