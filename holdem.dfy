/** The Texas Hold'em round controller of rust/src/poker/texas_hold_em.rs:
    seats, hole-card dealing, burn-then-deal community cards, the street
    marker and the reset at the end of a hand. */
module HoldEm {
  import opened Wrappers
  import opened Cards
  import opened Variants
  import opened Decks
  import opened Players
  import opened Tables

  datatype BettingRound = Preflop | Flop | Turn | River | Final

  datatype GameError =
    | InvalidPlayerCount
    | NoPlayers
    | PlayerError(playerError: Players.PlayerError)
    | CardError(cardError: Cards.CardError)
    | DeckError(deckError: Decks.DeckError)

  /** The stack every seat of `initialize_players` starts with. */
  const StartingChips: nat := 1000

  /** A seat as `initialize_players` creates it. */
  predicate IsNewSeat(p: Player, name: string)
    reads p
  {
    p.name == name && p.hand == [] && p.chips == StartingChips && p.betInRound == 0
    && p.position == None && p.playerType == Human && p.gameVariant == TexasHoldem
  }

  /** The number of cards the seats hold (`num_cards_in_hands`). */
  function CardsHeld(ps: seq<Player>): (n: nat)
    reads ps
    ensures forall i :: 0 <= i < |ps| ==> |ps[i].hand| <= n
    ensures ps == [] ==> n == 0
    decreases |ps|
  {
    if ps == [] then 0 else |ps[0].hand| + CardsHeld(ps[1..])
  }

  lemma {:induction false} CardsHeldIs(ps: seq<Player>, hands: seq<seq<Card>>)
    requires |ps| == |hands| && forall i :: 0 <= i < |ps| ==> hands[i] == ps[i].hand
    ensures CardsHeld(ps) == CardsIn(hands)
    decreases |ps|
  {
    if ps != [] {
      CardsHeldIs(ps[1..], hands[1..]);
    }
  }

  class PokerGame {
    var players: seq<Player>
    const deck: Deck
    var pot: nat
    var currentBet: nat
    var communityCards: seq<Card>
    var rounds: Option<BettingRound>
    /** Cards burned before community cards; the source discards them. */
    ghost var burned: seq<Card>
    /** Cards drawn for a seat whose hand was already full; the source
        discards them. */
    ghost var lost: seq<Card>
    /** The seats' hands, in seat order. */
    ghost var hands: seq<seq<Card>>

    /** Distinct Hold'em seats, each within its hole-card bound, whose
        hands `hands` mirrors. */
    ghost predicate Valid()
      reads this, players
    {
      (forall i, j :: 0 <= i < j < |players| ==> players[i] != players[j])
      && (forall i :: 0 <= i < |players| ==> players[i].gameVariant == TexasHoldem && players[i].Valid())
      && |hands| == |players|
      && (forall i :: 0 <= i < |players| ==> hands[i] == players[i].hand)
    }

    /** The cards of the table as a value. */
    ghost function Cards(): Table
      reads this, deck
    {
      Table(deck.cards, hands, communityCards, burned, lost)
    }

    /** The table holds exactly one 52-card set. */
    ghost predicate AccountedFor()
      reads this, deck
    {
      CardsOn(Cards()) == multiset(CanonicalDeck())
    }

    /** `PokerGame::new`. */
    constructor ()
      ensures Valid() && players == [] && fresh(deck) && deck.cards == []
      ensures pot == 0 && currentBet == 0 && communityCards == [] && rounds == None
      ensures burned == [] && lost == [] && hands == []
    {
      players := [];
      deck := new Deck();
      pot := 0;
      currentBet := 0;
      communityCards := [];
      rounds := None;
      burned := [];
      lost := [];
      hands := [];
    }

    /** `initialize_players`: the count check looks at `names` alone; on
        success one fresh seat per name is appended, in order, and no card
        moves. */
    method InitializePlayers(names: seq<string>) returns (r: Result<(), GameError>, ghost seats: seq<Player>)
      requires Valid()
      modifies this`players, this`hands
      ensures Valid() && old(|hands|) <= |hands| && hands[..old(|hands|)] == old(hands)
      ensures forall k :: old(|hands|) <= k < |hands| ==> hands[k] == []
      ensures r.Err? <==> |names| < 2 || |names| > 8
      ensures r.Err? ==> r.error == InvalidPlayerCount && seats == []
      ensures players == old(players) + seats
      ensures r.Ok? ==> |seats| == |names|
      ensures forall k :: 0 <= k < |seats| ==> fresh(seats[k]) && IsNewSeat(seats[k], names[k])
    {
      seats := [];
      if |names| < 2 || |names| > 8 {
        return Err(InvalidPlayerCount), seats;
      }
      for k := 0 to |names|
        invariant |seats| == k
        invariant players == old(players) + seats
        invariant forall j :: 0 <= j < k ==> fresh(seats[j]) && IsNewSeat(seats[j], names[j])
        invariant Valid() && old(|hands|) <= |hands| && hands[..old(|hands|)] == old(hands)
        invariant forall k :: old(|hands|) <= k < |hands| ==> hands[k] == []
      {
        var p := AddSeat(names[k]);
        assert old(players) + (seats + [p]) == old(players) + seats + [p];
        seats := seats + [p];
      }
      r := Ok(());
    }

    /** One seat of `initialize_players`: a fresh Hold'em player with the
        starting stack and an empty hand joins the end of the table. */
    method AddSeat(name: string) returns (p: Player)
      requires Valid()
      modifies this`players, this`hands
      ensures fresh(p) && IsNewSeat(p, name)
      ensures players == old(players) + [p] && hands == old(hands) + [[]]
      ensures Valid()
    {
      p := new Player(name, StartingChips, Human, TexasHoldem);
      players := players + [p];
      hands := hands + [[]];
    }

    /** `new_deck`: a fresh shuffled 52-card set; nothing else moves, so a
        table with no card out then holds exactly one set. */
    method NewDeck()
      modifies deck
      ensures |deck.cards| == 52 && multiset(deck.cards) == multiset(CanonicalDeck())
      ensures Valid() && NoCardsOut() ==> AccountedFor()
    {
      deck.InitializeAndShuffle();
      if Valid() && NoCardsOut() {
        PooledEmpty(hands);
      }
    }

    /** No card is outside the deck. */
    ghost predicate NoCardsOut()
      reads this
    {
      (forall i :: 0 <= i < |hands| ==> hands[i] == [])
      && communityCards == [] && burned == [] && lost == []
    }

    /** `clear_deck`. */
    method ClearDeck()
      modifies deck
      ensures deck.cards == []
    {
      deck.Clear();
    }

    /** `deal_player_cards`: two passes round the table, each seat taking
        the card popped from the back of the deck. Draw and receive
        failures are swallowed, so the result is always `Ok`. */
    method DealPlayerCards() returns (r: Result<(), GameError>)
      requires Valid()
      modifies this`lost, this`hands, deck, players`hand
      ensures r == Ok(())
      ensures Valid() && Cards() == DealHoleCards(old(Cards()))
      ensures forall i :: 0 <= i < |players| ==>
                players[i].GetStake() == old(players[i].GetStake()) && players[i].position == old(players[i].position)
    {
      ghost var t0 := Cards();
      for pass := 0 to 2
        invariant Valid()
        invariant Cards() == if pass == 0 then t0 else if pass == 1 then Pass(t0) else DealHoleCards(t0)
      {
        DealRound();
      }
      r := Ok(());
    }

    /** One pass of `deal_player_cards` round every seat in order. */
    method DealRound()
      requires Valid()
      modifies this`lost, this`hands, deck, players`hand
      ensures Valid() && Cards() == Pass(old(Cards()))
    {
      ghost var start := Cards();
      for k := 0 to |players|
        invariant Valid() && PassFrom(Cards(), k) == Pass(start)
      {
        PassFromStep(Cards(), k);
        DealOne(k);
      }
    }

    /** One pop of `deal_player_cards` for seat `k`. */
    method DealOne(k: nat)
      requires Valid() && k < |players|
      modifies this`lost, this`hands, deck, players`hand
      ensures Valid() && Cards() == DealStep(old(Cards()), k)
    {
      var drawn := deck.Draw();
      if drawn.Ok? {
        var c := drawn.value;
        var received := players[k].ReceiveCard(c);
        if received.Err? {
          lost := lost + [c];
        } else {
          hands := hands[k := hands[k] + [c]];
        }
      }
    }

    /** `deal_community_cards`: burn, then pop `numCards` cards onto the
        board; fails exactly when the deck holds fewer than `numCards + 1`
        cards, keeping what was dealt before the failure. */
    method DealCommunityCards(numCards: nat) returns (r: Result<(), GameError>)
      modifies this`communityCards, this`burned, deck
      ensures Cards() == DealCommunity(old(Cards()), numCards)
      ensures r.Ok? <==> numCards + 1 <= old(|deck.cards|)
      ensures r.Err? ==> r.error == GameError.DeckError(NotEnoughCards)
    {
      ghost var t0 := Cards();
      var burn := deck.Draw();
      if burn.Err? {
        return Err(GameError.DeckError(burn.error));
      }
      burned := burned + [burn.value];
      ghost var t1 := Cards();
      assert t1 == Burn(t0);
      for k := 0 to numCards
        invariant k <= |t1.deck| && Cards() == ToBoard(t1, k)
      {
        var drawn := deck.Draw();
        if drawn.Err? {
          return Err(GameError.DeckError(NotEnoughCards));
        }
        communityCards := communityCards + [drawn.value];
      }
      r := Ok(());
    }

    /** `flop`: burn and three cards, then the round marker. */
    method Flop() returns (r: Result<(), GameError>)
      modifies this`communityCards, this`burned, this`rounds, deck
      ensures Cards() == DealCommunity(old(Cards()), 3)
      ensures r.Ok? <==> 4 <= old(|deck.cards|)
      ensures r.Err? ==> r.error == GameError.DeckError(NotEnoughCards)
      ensures rounds == if r.Ok? then Some(BettingRound.Flop) else old(rounds)
    {
      r := DealCommunityCards(3);
      if r.Ok? {
        rounds := Some(BettingRound.Flop);
      }
    }

    /** `turn`: burn and one card, then the round marker. */
    method Turn() returns (r: Result<(), GameError>)
      modifies this`communityCards, this`burned, this`rounds, deck
      ensures Cards() == DealCommunity(old(Cards()), 1)
      ensures r.Ok? <==> 2 <= old(|deck.cards|)
      ensures r.Err? ==> r.error == GameError.DeckError(NotEnoughCards)
      ensures rounds == if r.Ok? then Some(BettingRound.Turn) else old(rounds)
    {
      r := DealCommunityCards(1);
      if r.Ok? {
        rounds := Some(BettingRound.Turn);
      }
    }

    /** `river`: burn and one card, then the round marker. */
    method River() returns (r: Result<(), GameError>)
      modifies this`communityCards, this`burned, this`rounds, deck
      ensures Cards() == DealCommunity(old(Cards()), 1)
      ensures r.Ok? <==> 2 <= old(|deck.cards|)
      ensures r.Err? ==> r.error == GameError.DeckError(NotEnoughCards)
      ensures rounds == if r.Ok? then Some(BettingRound.River) else old(rounds)
    {
      r := DealCommunityCards(1);
      if r.Ok? {
        rounds := Some(BettingRound.River);
      }
    }

    /** `end_game`: the board, pot, bet and round are reset, every hand is
        emptied and the deck is a fresh shuffled 52-card set, so the table
        again holds exactly one set. Stacks are untouched. */
    method EndGame()
      requires Valid()
      modifies this`communityCards, this`pot, this`currentBet, this`rounds, this`burned, this`lost, this`hands, deck, players`hand
      ensures Valid() && NoCardsOut() && AccountedFor()
      ensures pot == 0 && currentBet == 0 && rounds == None
      ensures forall i :: 0 <= i < |players| ==>
                players[i].GetStake() == old(players[i].GetStake()) && players[i].position == old(players[i].position)
    {
      rounds := Some(BettingRound.Final);
      communityCards := [];
      pot := 0;
      currentBet := 0;
      rounds := None;
      ResetCards();
    }

    /** The card reset of `end_game`: with the board already cleared, every
        hand is emptied, the discards go and a fresh shuffled set fills the
        deck. */
    method ResetCards()
      requires Valid() && communityCards == []
      modifies this`hands, this`burned, this`lost, deck, players`hand
      ensures Valid() && NoCardsOut() && AccountedFor()
      ensures |deck.cards| == 52 && multiset(deck.cards) == multiset(CanonicalDeck())
    {
      ClearHands();
      deck.InitializeAndShuffle();
      burned := [];
      lost := [];
      PooledEmpty(hands);
    }

    /** The hand-clearing loop of `end_game`. */
    method ClearHands()
      requires Valid()
      modifies this`hands, players`hand
      ensures Valid() && forall j :: 0 <= j < |hands| ==> hands[j] == []
    {
      for i := 0 to |players|
        invariant Valid()
        invariant forall j :: 0 <= j < i ==> hands[j] == []
      {
        ClearSeat(i);
      }
    }

    /** `clear_hand` on seat `i`, mirrored in `hands`. */
    method ClearSeat(i: nat)
      requires Valid() && i < |players|
      modifies this`hands, players`hand
      ensures Valid() && hands == old(hands)[i := []]
    {
      players[i].ClearHand();
      hands := hands[i := []];
    }

    /** `num_players`. */
    function NumPlayers(): (n: nat)
      reads this
      ensures n == |players|
      ensures n == 0 <==> CheckNoPlayers().Err?
    {
      |players|
    }

    /** `check_no_players`: an error exactly for an empty table. */
    function CheckNoPlayers(): (r: Result<(), GameError>)
      reads this
      ensures r.Err? <==> players == []
      ensures r.Err? ==> r.error == NoPlayers
    {
      if players == [] then Err(NoPlayers) else Ok(())
    }

    /** `num_cards_in_deck`. */
    function NumCardsInDeck(): (n: nat)
      reads this, deck
      ensures n == |deck.cards|
    {
      deck.Remaining()
    }

    /** `num_community_cards`. */
    function NumCommunityCards(): (n: nat)
      reads this
      ensures n == |communityCards|
    {
      |communityCards|
    }

    /** `num_cards_in_hands`. */
    function NumCardsInHands(): (n: nat)
      reads this, players
      ensures forall i :: 0 <= i < |players| ==> |players[i].hand| <= n
      ensures players == [] ==> n == 0
    {
      CardsHeld(players)
    }
  }

  /** With no card out, a table holding exactly one set has all 52 cards
      in the deck: the state `end_game` leaves behind. */
  lemma FreshTable(g: PokerGame)
    requires g.NoCardsOut() && g.AccountedFor()
    ensures |g.deck.cards| == 52 && multiset(g.deck.cards) == multiset(CanonicalDeck())
  {
    PooledEmpty(g.hands);
    assert |multiset(CanonicalDeck())| == 52;
  }

  /** A table holding exactly one 52-card set counts 52 cards across deck,
      hands, board and discards. */
  lemma CardsAddUpTo52(g: PokerGame)
    requires g.Valid() && g.AccountedFor()
    ensures g.NumCardsInDeck() + g.NumCardsInHands() + g.NumCommunityCards() + |g.burned| + |g.lost| == 52
  {
    CardsHeldIs(g.players, g.hands);
    CountOnIsSize(g.Cards());
    assert |multiset(CanonicalDeck())| == 52;
  }
}
