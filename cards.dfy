/** Playing cards: rust/src/poker/card.rs, and its line-for-line twin
    src/cards/card.rs. */
module Cards {
  import opened Wrappers

  /** Rust's `u8`. */
  type u8 = x: int | 0 <= x < 256

  datatype Suit = Hearts | Diamonds | Clubs | Spades

  /** The card value. Its fields are private in the source, so every card
      comes out of `New`; equality is the derived, structural one. */
  datatype Card = Card(suit: Suit, rank: u8)

  datatype CardError = InvalidCardRank(rank: u8)

  const MinRank: u8 := 2
  const MaxRank: u8 := 14

  predicate ValidRank(rank: int) {
    MinRank <= rank <= MaxRank
  }

  /** `Card::new`: refuses a rank outside [2, 14], reporting the rank. */
  function New(suit: Suit, rank: u8): (r: Result<Card, CardError>)
    ensures r.Err? <==> rank < 2 || rank > 14
    ensures r.Err? ==> r.error == InvalidCardRank(rank)
    ensures r.Ok? ==> r.value.suit == suit && r.value.rank == rank && ValidRank(r.value.rank)
  {
    if rank < MinRank || rank > MaxRank then Err(InvalidCardRank(rank))
    else Ok(Card(suit, rank))
  }

  /** `Card::suit`. */
  function SuitOf(c: Card): Suit { c.suit }

  /** `Card::rank`. */
  function RankOf(c: Card): u8 { c.rank }

  /** Every rank from 2 to 14 builds a card of every suit, and the accessors
      give back exactly the arguments. */
  lemma NewRoundTrip(suit: Suit, rank: u8)
    requires ValidRank(rank)
    ensures New(suit, rank).Ok?
    ensures SuitOf(New(suit, rank).value) == suit
    ensures RankOf(New(suit, rank).value) == rank
  {
  }

  /** Two constructed cards are equal exactly when suit and rank agree. */
  lemma NewEquality(s1: Suit, r1: u8, s2: Suit, r2: u8)
    requires New(s1, r1).Ok? && New(s2, r2).Ok?
    ensures New(s1, r1).value == New(s2, r2).value <==> s1 == s2 && r1 == r2
  {
  }
}
