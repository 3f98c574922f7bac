/** The deck of rust/src/poker/deck.rs: a vector of cards that is refilled
    in a fixed order, shuffled, and drawn from its back. */
module Decks {
  import opened Wrappers
  import opened Cards

  datatype DeckError = NotEnoughCards | CardError(error: Cards.CardError)

  /** The suit order of the initialising loop. */
  const SuitOrder: seq<Suit> := [Hearts, Diamonds, Clubs, Spades]

  /** Position of a suit in `SuitOrder`. */
  function SuitIndex(s: Suit): (i: nat)
    ensures i < 4 && SuitOrder[i] == s
  {
    match s
    case Hearts => 0
    case Diamonds => 1
    case Clubs => 2
    case Spades => 3
  }

  /** The k-th card that `initialize` pushes: suit-major, ranks ascending. */
  function CanonicalCard(k: nat): (c: Card)
    requires k < 52
    ensures ValidRank(c.rank)
  {
    Card(SuitOrder[k / 13], k % 13 + 2)
  }

  /** The 52 cards in the order `initialize` leaves them. */
  function CanonicalDeck(): (d: seq<Card>)
    ensures |d| == 52
  {
    seq(52, k requires 0 <= k < 52 => CanonicalCard(k))
  }

  lemma CanonicalCardAt(si: nat, rank: int)
    requires si < 4 && ValidRank(rank)
    ensures 13 * si + rank - 2 < 52
    ensures CanonicalCard(13 * si + rank - 2) == Card(SuitOrder[si], rank)
  {
    var k := 13 * si + rank - 2;
    assert k / 13 == si && k % 13 == rank - 2;
  }

  /** The fresh deck holds every valid card exactly once: it lists 52
      pairwise distinct cards, each of valid rank, and every (suit, rank)
      pair appears in it. */
  lemma {:induction false} CanonicalDeckIsFullSet()
    ensures forall i, j :: 0 <= i < j < 52 ==> CanonicalDeck()[i] != CanonicalDeck()[j]
    ensures forall c: Card :: c in CanonicalDeck() <==> ValidRank(c.rank)
    ensures forall c: Card :: ValidRank(c.rank) ==> multiset(CanonicalDeck())[c] == 1
  {
    var d := CanonicalDeck();
    forall i, j | 0 <= i < j < 52 ensures d[i] != d[j] {
      if i / 13 == j / 13 {
        assert i % 13 != j % 13;
      } else {
        assert SuitOrder[i / 13] != SuitOrder[j / 13];
      }
    }
    forall c: Card | ValidRank(c.rank) ensures c in d {
      CanonicalCardAt(SuitIndex(c.suit), c.rank);
      assert d[13 * SuitIndex(c.suit) + c.rank - 2] == c;
    }
    forall c: Card | ValidRank(c.rank) ensures multiset(d)[c] == 1 {
      CanonicalCardAt(SuitIndex(c.suit), c.rank);
      DistinctCount(d, 13 * SuitIndex(c.suit) + c.rank - 2);
    }
  }

  /** In a sequence without repeats, an element occurs exactly once. */
  lemma {:induction false} DistinctCount<T>(s: seq<T>, k: nat)
    requires k < |s|
    requires forall i, j :: 0 <= i < j < |s| ==> s[i] != s[j]
    ensures multiset(s)[s[k]] == 1
  {
    var x := s[k];
    assert s == s[..k] + [x] + s[k + 1..];
    assert x !in s[..k];
    assert x !in s[k + 1..];
    assert multiset(s[..k])[x] == 0;
    assert multiset(s[k + 1..])[x] == 0;
  }

  /** The first `m` cards that `m` calls of `draw` return, in order:
      the back of the deck first. */
  function DrawOrder(d: seq<Card>, m: nat): (r: seq<Card>)
    requires m <= |d|
    ensures |r| == m
  {
    seq(m, t requires 0 <= t < m => d[|d| - 1 - t])
  }

  /** Drawing one more card appends the next card from the back. */
  lemma DrawOrderStep(d: seq<Card>, m: nat)
    requires m < |d|
    ensures DrawOrder(d, m + 1) == DrawOrder(d, m) + [d[|d| - 1 - m]]
  {
  }

  /** Drawing moves cards and loses none: what is drawn and what is left
      together make up the deck. */
  lemma {:induction false} DrawOrderSplits(d: seq<Card>, m: nat)
    requires m <= |d|
    ensures multiset(d[..|d| - m]) + multiset(DrawOrder(d, m)) == multiset(d)
  {
    if m == 0 {
      assert d[..|d|] == d;
    } else {
      DrawOrderSplits(d, m - 1);
      DrawOrderStep(d, m - 1);
      var k := |d| - m;
      var kept, drawn := d[..k], DrawOrder(d, m - 1);
      assert d[..k + 1] == kept + [d[k]];
      assert DrawOrder(d, m) == drawn + [d[k]];
      assert multiset(kept + [d[k]]) == multiset(kept) + multiset{d[k]};
      assert multiset(drawn + [d[k]]) == multiset(drawn) + multiset{d[k]};
    }
  }

  class Deck {
    var cards: seq<Card>

    /** `Deck::new`: an empty deck (the initialising loop is not run). */
    constructor ()
      ensures cards == []
    {
      cards := [];
    }

    /** `remaining`. */
    function Remaining(): (n: nat)
      reads this
      ensures n == |cards|
      ensures n == 0 <==> cards == []
    {
      |cards|
    }

    /** `initialize`: clear, then push every suit's ranks 2..14 in order.
        The result does not depend on what the deck held before. */
    method Initialize()
      modifies this
      ensures cards == CanonicalDeck()
    {
      cards := [];
      for si := 0 to 4
        invariant cards == CanonicalDeck()[..13 * si]
      {
        var suit := SuitOrder[si];
        for rank := 2 to 15
          invariant cards == CanonicalDeck()[..13 * si + rank - 2]
        {
          var c := New(suit, rank);
          CanonicalCardAt(si, rank);
          cards := cards + [c.value];
        }
      }
    }

    /** `shuffle`: some permutation of the cards; which one the random
        source picks is left open. */
    method Shuffle()
      modifies this
      ensures |cards| == old(|cards|)
      ensures multiset(cards) == old(multiset(cards))
    {
      var shuffled :| multiset(shuffled) == multiset(cards);
      cards := shuffled;
    }

    /** `initialize_and_shuffle`: a fresh 52-card set in some order. */
    method InitializeAndShuffle()
      modifies this
      ensures |cards| == 52
      ensures multiset(cards) == multiset(CanonicalDeck())
    {
      Initialize();
      Shuffle();
    }

    /** `draw`: pop the last card, or fail on an empty deck. */
    method Draw() returns (r: Result<Card, DeckError>)
      modifies this
      ensures old(cards) == [] <==> r.Err?
      ensures r.Err? ==> r.error == NotEnoughCards && cards == old(cards)
      ensures r.Ok? ==> r.value == old(cards)[|old(cards)| - 1]
                        && cards == old(cards)[..|old(cards)| - 1]
                        && Remaining() == old(Remaining()) - 1
      ensures r.Ok? ==> old(cards) == cards + [r.value]
    {
      if cards == [] {
        r := Err(NotEnoughCards);
      } else {
        r := Ok(cards[|cards| - 1]);
        cards := cards[..|cards| - 1];
      }
    }

    /** `clear`. */
    method Clear()
      modifies this
      ensures cards == [] && Remaining() == 0
    {
      cards := [];
    }
  }
}
