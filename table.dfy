/** The cards of a Texas Hold'em table of rust/src/poker/texas_hold_em.rs,
    as a value: the deck, the seats' hands, the board and the cards the
    source discards (burned cards, and cards drawn for a full hand). The
    dealing operations are stated here as functions on that value; the
    methods of `HoldEm.PokerGame` are proved equal to them. */
module Tables {
  import opened Cards
  import opened Variants
  import opened Decks

  datatype Table = Table(deck: seq<Card>, hands: seq<seq<Card>>, board: seq<Card>,
                         burned: seq<Card>, lost: seq<Card>)

  function Min(a: nat, b: nat): nat {
    if a <= b then a else b
  }

  /** Every card in a list of hands, as a multiset. */
  function Pooled(hands: seq<seq<Card>>): multiset<Card> {
    if hands == [] then multiset{} else multiset(hands[0]) + Pooled(hands[1..])
  }

  /** The number of cards in a list of hands. */
  function CardsIn(hands: seq<seq<Card>>): nat {
    if hands == [] then 0 else |hands[0]| + CardsIn(hands[1..])
  }

  /** Every card on the table. */
  function CardsOn(t: Table): multiset<Card> {
    multiset(t.deck) + Pooled(t.hands) + multiset(t.board) + multiset(t.burned) + multiset(t.lost)
  }

  /** How many cards are on the table. */
  function CountOn(t: Table): nat {
    |t.deck| + CardsIn(t.hands) + |t.board| + |t.burned| + |t.lost|
  }

  lemma {:induction false} PooledSize(hands: seq<seq<Card>>)
    ensures |Pooled(hands)| == CardsIn(hands)
  {
    if hands != [] {
      PooledSize(hands[1..]);
    }
  }

  /** The table holds as many cards as its multiset counts. */
  lemma CountOnIsSize(t: Table)
    ensures |CardsOn(t)| == CountOn(t)
  {
    PooledSize(t.hands);
  }

  lemma {:induction false} PooledAdd(hands: seq<seq<Card>>, i: nat, c: Card)
    requires i < |hands|
    ensures Pooled(hands[i := hands[i] + [c]]) == Pooled(hands) + multiset{c}
  {
    if i == 0 {
      assert hands[i := hands[i] + [c]][1..] == hands[1..];
    } else {
      assert hands[i := hands[i] + [c]][1..] == hands[1..][i - 1 := hands[i] + [c]];
      PooledAdd(hands[1..], i - 1, c);
    }
  }

  lemma {:induction false} PooledEmpty(hands: seq<seq<Card>>)
    requires forall i :: 0 <= i < |hands| ==> hands[i] == []
    ensures Pooled(hands) == multiset{} && CardsIn(hands) == 0
  {
    if hands != [] {
      PooledEmpty(hands[1..]);
    }
  }

  lemma {:induction false} PooledSplit(a: seq<seq<Card>>, b: seq<seq<Card>>)
    ensures Pooled(a + b) == Pooled(a) + Pooled(b)
  {
    if a != [] {
      assert (a + b)[1..] == a[1..] + b;
      PooledSplit(a[1..], b);
    } else {
      assert a + b == b;
    }
  }

  /** Seating players with empty hands after the existing seats adds no
      card to the table. */
  lemma SeatingAddsNoCards(t: Table, hands: seq<seq<Card>>)
    requires |t.hands| <= |hands| && hands[..|t.hands|] == t.hands
    requires forall k :: |t.hands| <= k < |hands| ==> hands[k] == []
    ensures CardsOn(t.(hands := hands)) == CardsOn(t)
  {
    var tail := hands[|t.hands|..];
    assert hands == t.hands + tail;
    PooledSplit(t.hands, tail);
    PooledEmpty(tail);
  }

  // deal_player_cards

  /** One pop of `deal_player_cards` for seat `k`: nothing on an empty
      deck; otherwise the back card goes to the seat, or is dropped when
      its hand already holds its hole cards. */
  function DealStep(t: Table, k: nat): (r: Table)
    requires k < |t.hands|
    ensures |r.hands| == |t.hands| && r.board == t.board && r.burned == t.burned
    ensures |r.deck| == if t.deck == [] then 0 else |t.deck| - 1
  {
    if t.deck == [] then t
    else
      var c := t.deck[|t.deck| - 1];
      var rest := t.deck[..|t.deck| - 1];
      if |t.hands[k]| < HoleCards(TexasHoldem) then t.(deck := rest, hands := t.hands[k := t.hands[k] + [c]])
      else t.(deck := rest, lost := t.lost + [c])
  }

  /** The rest of a pass round the table, from seat `i` to the last. */
  function PassFrom(t: Table, i: nat): (r: Table)
    requires i <= |t.hands|
    ensures |r.hands| == |t.hands| && r.board == t.board && r.burned == t.burned
    ensures |r.deck| <= |t.deck|
    decreases |t.hands| - i
  {
    if i == |t.hands| then t else PassFrom(DealStep(t, i), i + 1)
  }

  lemma PassFromStep(t: Table, i: nat)
    requires i < |t.hands|
    ensures PassFrom(t, i) == PassFrom(DealStep(t, i), i + 1)
  {
  }

  /** One pass round every seat in order. */
  function Pass(t: Table): Table {
    PassFrom(t, 0)
  }

  /** `deal_player_cards`: two passes round every seat. */
  function DealHoleCards(t: Table): (r: Table)
    ensures |r.hands| == |t.hands| && r.board == t.board && r.burned == t.burned
    ensures |r.deck| <= |t.deck|
  {
    Pass(Pass(t))
  }

  /** A pop moves a card and loses none. */
  lemma DealStepKeepsCards(t: Table, k: nat)
    requires k < |t.hands|
    ensures CardsOn(DealStep(t, k)) == CardsOn(t)
  {
    if t.deck != [] {
      var c := t.deck[|t.deck| - 1];
      assert t.deck == t.deck[..|t.deck| - 1] + [c];
      if |t.hands[k]| < HoleCards(TexasHoldem) {
        PooledAdd(t.hands, k, c);
      }
    }
  }

  lemma {:induction false} PassFromKeepsCards(t: Table, i: nat)
    requires i <= |t.hands|
    ensures CardsOn(PassFrom(t, i)) == CardsOn(t)
    decreases |t.hands| - i
  {
    if i < |t.hands| {
      DealStepKeepsCards(t, i);
      PassFromKeepsCards(DealStep(t, i), i + 1);
    }
  }

  /** Dealing hole cards neither creates nor destroys a card. */
  lemma DealHoleCardsKeepsCards(t: Table)
    ensures CardsOn(DealHoleCards(t)) == CardsOn(t)
  {
    PassFromKeepsCards(t, 0);
    PassFromKeepsCards(Pass(t), 0);
  }

  /** The rest of a pass pops one card per remaining seat while cards
      last, and leaves the board and the burned cards alone. */
  lemma {:induction false} PassFromDeck(t: Table, i: nat)
    requires i <= |t.hands|
    ensures PassFrom(t, i).deck == t.deck[..|t.deck| - Min(|t.deck|, |t.hands| - i)]
    ensures PassFrom(t, i).board == t.board && PassFrom(t, i).burned == t.burned
    decreases |t.hands| - i
  {
    if i < |t.hands| {
      PassFromDeck(DealStep(t, i), i + 1);
    } else {
      assert t.deck[..|t.deck|] == t.deck;
    }
  }

  /** Dealing hole cards pops two cards per seat, or the whole deck when it
      runs short. */
  lemma DealHoleCardsDeck(t: Table)
    ensures DealHoleCards(t).deck == t.deck[..|t.deck| - Min(|t.deck|, 2 * |t.hands|)]
    ensures DealHoleCards(t).board == t.board && DealHoleCards(t).burned == t.burned
  {
    PassFromDeck(t, 0);
    PassFromDeck(Pass(t), 0);
  }

  /** With enough cards and room in every remaining hand, the rest of a
      pass from seat `i` gives seat `j` the `(j - i)`-th card from the
      back. */
  lemma {:induction false} PassFromFills(t: Table, i: nat)
    requires i <= |t.hands| && |t.hands| - i <= |t.deck|
    requires forall j :: i <= j < |t.hands| ==> |t.hands[j]| < HoleCards(TexasHoldem)
    ensures PassFrom(t, i).lost == t.lost
    ensures forall j :: 0 <= j < i ==> PassFrom(t, i).hands[j] == t.hands[j]
    ensures forall j :: i <= j < |t.hands| ==> PassFrom(t, i).hands[j] == t.hands[j] + [t.deck[|t.deck| - 1 - (j - i)]]
    decreases |t.hands| - i
  {
    if i < |t.hands| {
      var u := DealStep(t, i);
      assert u.deck == t.deck[..|t.deck| - 1];
      PassFromFills(u, i + 1);
    }
  }

  /** From empty hands, the first pass gives seat `j` the `j`-th card
      from the back. */
  lemma FirstPassFromEmpty(t: Table)
    requires forall j :: 0 <= j < |t.hands| ==> t.hands[j] == []
    requires |t.hands| <= |t.deck|
    ensures Pass(t).deck == t.deck[..|t.deck| - |t.hands|] && Pass(t).lost == t.lost
    ensures forall j :: 0 <= j < |t.hands| ==> Pass(t).hands[j] == [t.deck[|t.deck| - 1 - j]]
  {
    PassFromDeck(t, 0);
    PassFromFills(t, 0);
  }

  /** From empty hands and a deck of at least two cards per seat, seat `i`
      gets the `i`-th and the `(n + i)`-th card from the back, and no card
      is dropped. */
  lemma DealHoleCardsFromEmpty(t: Table)
    requires forall j :: 0 <= j < |t.hands| ==> t.hands[j] == []
    requires 2 * |t.hands| <= |t.deck|
    ensures DealHoleCards(t).lost == t.lost
    ensures forall i :: 0 <= i < |t.hands| ==>
              DealHoleCards(t).hands[i] == [t.deck[|t.deck| - 1 - i], t.deck[|t.deck| - 1 - |t.hands| - i]]
  {
    FirstPassFromEmpty(t);
    var t1 := Pass(t);
    PassOverSingles(t1);
    SecondCards(t.deck, |t.hands|, t1.deck, t1.hands, Pass(t1).hands);
  }

  /** A pass over hands of one card each, with a card for every seat,
      gives seat `j` the `j`-th card from the back. */
  lemma PassOverSingles(t: Table)
    requires |t.hands| <= |t.deck|
    requires forall j :: 0 <= j < |t.hands| ==> |t.hands[j]| == 1
    ensures Pass(t).lost == t.lost
    ensures forall j :: 0 <= j < |t.hands| ==> Pass(t).hands[j] == t.hands[j] + [t.deck[|t.deck| - 1 - j]]
  {
    PassFromFills(t, 0);
  }

  /** The second pass in index terms: the seat that got the `i`-th card
      from the back of `d` now also gets the `i`-th card from the back of
      what was left, `d` without its last `n` cards. */
  lemma SecondCards(d: seq<Card>, n: nat, rest: seq<Card>, h1: seq<seq<Card>>, h2: seq<seq<Card>>)
    requires 2 * n <= |d| && rest == d[..|d| - n] && |h1| == |h2| == n
    requires forall j :: 0 <= j < n ==> h1[j] == [d[|d| - 1 - j]]
    requires forall j :: 0 <= j < n ==> h2[j] == h1[j] + [rest[|rest| - 1 - j]]
    ensures forall i :: 0 <= i < n ==> h2[i] == [d[|d| - 1 - i], d[|d| - 1 - n - i]]
  {
    forall i | 0 <= i < n
      ensures h2[i] == [d[|d| - 1 - i], d[|d| - 1 - n - i]]
    {
      assert rest[|rest| - 1 - i] == d[|d| - 1 - n - i];
    }
  }

  // deal_community_cards

  /** The burn: the back card goes face down. */
  function Burn(t: Table): (r: Table)
    requires t.deck != []
    ensures |r.burned| == |t.burned| + 1 && r.burned[..|t.burned|] == t.burned
    ensures r.deck + [r.burned[|t.burned|]] == t.deck
    ensures r.hands == t.hands && r.board == t.board && r.lost == t.lost
  {
    t.(deck := t.deck[..|t.deck| - 1], burned := t.burned + [t.deck[|t.deck| - 1]])
  }

  /** The burned card stays on the table. */
  lemma BurnKeepsCards(t: Table)
    requires t.deck != []
    ensures CardsOn(Burn(t)) == CardsOn(t)
  {
    var d, b := t.deck, Burn(t);
    assert d == b.deck + [d[|d| - 1]];
    assert multiset(b.deck) + multiset{d[|d| - 1]} == multiset(d);
    assert multiset(b.burned) == multiset(t.burned) + multiset{d[|d| - 1]};
  }

  /** `k` cards popped from the back onto the board, one at a time. */
  function ToBoard(t: Table, k: nat): (r: Table)
    requires k <= |t.deck|
    ensures |r.deck| == |t.deck| - k && |r.board| == |t.board| + k
    ensures r.hands == t.hands && r.burned == t.burned && r.lost == t.lost
  {
    if k == 0 then t
    else
      var p := ToBoard(t, k - 1);
      p.(deck := p.deck[..|p.deck| - 1], board := p.board + [p.deck[|p.deck| - 1]])
  }

  /** `deal_community_cards(n)`: a burn, then as many of the `n` cards as
      the deck still holds; an empty deck is left as it is. */
  function DealCommunity(t: Table, n: nat): (r: Table)
    ensures r.hands == t.hands && r.lost == t.lost
    ensures t.deck == [] ==> r == t
    ensures t.deck != [] ==> |r.deck| == |t.deck| - Min(|t.deck|, n + 1)
                             && |r.board| == |t.board| + Min(|t.deck|, n + 1) - 1
                             && |r.burned| == |t.burned| + 1
  {
    if t.deck == [] then t
    else ToBoard(Burn(t), Min(|t.deck| - 1, n))
  }

  lemma {:induction false} ToBoardShape(t: Table, k: nat)
    requires k <= |t.deck|
    ensures ToBoard(t, k).deck == t.deck[..|t.deck| - k]
    ensures ToBoard(t, k).board == t.board + DrawOrder(t.deck, k)
    ensures ToBoard(t, k).hands == t.hands && ToBoard(t, k).burned == t.burned && ToBoard(t, k).lost == t.lost
  {
    if k > 0 {
      ToBoardShape(t, k - 1);
      DrawOrderStep(t.deck, k - 1);
    }
  }

  /** Moving cards onto the board creates and destroys none. */
  lemma ToBoardKeepsCards(t: Table, k: nat)
    requires k <= |t.deck|
    ensures CardsOn(ToBoard(t, k)) == CardsOn(t)
  {
    ToBoardShape(t, k);
    DrawOrderSplits(t.deck, k);
    var r, drawn := ToBoard(t, k), DrawOrder(t.deck, k);
    assert multiset(r.board) == multiset(t.board) + multiset(drawn);
    assert multiset(r.deck) + multiset(drawn) == multiset(t.deck);
  }

  /** Dealing to the board burns the back card and then moves the next
      ones, in pop order, onto the board: `n + 1` cards leave the deck when
      it holds that many, the whole deck otherwise. Hands and dropped
      cards are untouched. */
  lemma DealCommunityShape(t: Table, n: nat)
    requires t.deck != []
    ensures var d, m := t.deck, Min(|t.deck|, n + 1);
            var r := DealCommunity(t, n);
            r.deck == d[..|d| - m]
            && r.burned == t.burned + [d[|d| - 1]]
            && r.board == t.board + DrawOrder(d, m)[1..]
            && r.hands == t.hands && r.lost == t.lost
  {
    var d := t.deck;
    var b := Burn(t);
    var k := Min(|d| - 1, n);
    ToBoardShape(b, k);
    assert b.deck == d[..|d| - 1];
    forall i | 0 <= i < k
      ensures DrawOrder(d, k + 1)[1..][i] == DrawOrder(b.deck, k)[i]
    {
    }
  }

  /** Two seats and a full deck: 48 cards are left after the hole cards,
      then 44, 42 and 40 after flop, turn and river, which leave 3, 4 and
      5 cards on the board and burn one card each. */
  lemma TwoSeatCounts(t: Table)
    requires |t.deck| == 52 && |t.hands| == 2 && t.board == []
    ensures var h := DealHoleCards(t);
            var f := DealCommunity(h, 3);
            var u := DealCommunity(f, 1);
            var r := DealCommunity(u, 1);
            && |h.deck| == 48 && |f.deck| == 44 && |u.deck| == 42 && |r.deck| == 40
            && |f.board| == 3 && |u.board| == 4 && |r.board| == 5
            && |r.burned| == |t.burned| + 3
  {
    DealHoleCardsDeck(t);
    var h := DealHoleCards(t);
    DealCommunityShape(h, 3);
    var f := DealCommunity(h, 3);
    DealCommunityShape(f, 1);
    var u := DealCommunity(f, 1);
    DealCommunityShape(u, 1);
  }

  /** Dealing to the board creates and destroys no card. */
  lemma DealCommunityKeepsCards(t: Table, n: nat)
    ensures CardsOn(DealCommunity(t, n)) == CardsOn(t)
  {
    if t.deck != [] {
      var b := Burn(t);
      var k := Min(|t.deck| - 1, n);
      assert DealCommunity(t, n) == ToBoard(b, k);
      BurnKeepsCards(t);
      ToBoardKeepsCards(b, k);
    }
  }
}
