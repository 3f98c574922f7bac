/** The older round driver of rust/src/poker/poker_game.rs: a deck popped
    from its front, hole cards and community cards dealt with every failure
    propagated, the single-action chip arithmetic of a betting street, the
    end-of-street pot update and the Preflop-to-Final street sequence. */
module Simulation {
  import opened Wrappers
  import opened Cards
  import opened Variants
  import opened Players

  datatype BettingRound = Preflop | Flop | Turn | River | Final

  /** The errors of this driver; `NotEnoughCards` is returned by the
      dealing code although the enum of the source does not declare it. */
  datatype GameError = PlayerHandFull | InvalidAction | InsufficientChips | NotEnoughCards

  /** The stack every seat of `simulate_round` starts with. */
  const StartingChips: nat := 1000

  /** The place of a street in the order Preflop, Flop, Turn, River, Final. */
  function StreetIndex(r: BettingRound): (i: nat)
    ensures i <= 4 && (i == 4 <==> r == Final) && (i == 0 <==> r == Preflop)
  {
    match r
    case Preflop => 0
    case Flop => 1
    case Turn => 2
    case River => 3
    case Final => 4
  }

  /** The street `simulate_round` moves to after playing `r`. */
  function NextStreet(r: BettingRound): (n: BettingRound)
    requires r != Final
    ensures StreetIndex(n) == StreetIndex(r) + 1
  {
    match r
    case Preflop => Flop
    case Flop => Turn
    case Turn => River
    case River => Final
  }

  /** The community cards dealt while playing street `r`. */
  function StreetCards(r: BettingRound): (n: nat)
    ensures n <= 3
    ensures n == 0 <==> r == Preflop || r == Final
  {
    match r
    case Preflop => 0
    case Flop => 3
    case Turn => 1
    case River => 1
    case Final => 0
  }

  /** The cards taken from the front of the deck before street `r` is
      played, burns included. */
  function DeckUsedBefore(r: BettingRound): (n: nat)
    ensures n <= 8
  {
    match r
    case Preflop => 0
    case Flop => 0
    case Turn => 4
    case River => 6
    case Final => 8
  }

  /** The board built from the front of `d` before street `r` is played:
      card 0 is burned, then the flop; card 4 is burned, then the turn;
      card 6 is burned, then the river. */
  function BoardBefore(d: seq<Card>, r: BettingRound): (b: seq<Card>)
    requires DeckUsedBefore(r) <= |d|
  {
    match r
    case Preflop => []
    case Flop => []
    case Turn => d[1..4]
    case River => d[1..4] + d[5..6]
    case Final => d[1..4] + d[5..6] + d[7..8]
  }

  /** Each street that deals cards burns one first; Preflop deals none. */
  lemma StreetUsesDeck(r: BettingRound)
    requires r != Final
    ensures DeckUsedBefore(NextStreet(r)) ==
      DeckUsedBefore(r) + (if StreetCards(r) == 0 then 0 else StreetCards(r) + 1)
    ensures StreetCards(r) == 0 ==> r == Preflop
  {
  }

  /** Dealing street `r` from what is left of `d` leaves the deck and the
      board as they are before the next street. */
  lemma {:induction false} StreetsDealInOrder(d: seq<Card>, r: BettingRound)
    requires r != Final && StreetCards(r) > 0 && DeckUsedBefore(NextStreet(r)) <= |d|
    ensures FrontDeal(d[DeckUsedBefore(r)..], StreetCards(r)).1 == d[DeckUsedBefore(NextStreet(r))..]
    ensures BoardBefore(d, r) + FrontDeal(d[DeckUsedBefore(r)..], StreetCards(r)).0 == BoardBefore(d, NextStreet(r))
  {
    var u := DeckUsedBefore(r);
    StreetUsesDeck(r);
    assert BurnFront(d[u..]) == d[u + 1..];
    match r
    case Flop =>
    case Turn =>
    case River =>
  }

  /** `pop_front` for the burn: an empty deck is left as it is. */
  function BurnFront(deck: seq<Card>): (r: seq<Card>)
    ensures deck == [] ==> r == []
    ensures deck != [] ==> [deck[0]] + r == deck
  {
    if deck == [] then [] else deck[1..]
  }

  /** The cards `deal_community_cards` moves: after the burn, the first
      `n` cards go to the board, or all of them when fewer remain; the rest
      stay in the deck. Apart from the burned card nothing is lost and the
      order is kept. */
  function FrontDeal(deck: seq<Card>, n: nat): (r: (seq<Card>, seq<Card>))
    ensures r.0 + r.1 == BurnFront(deck)
    ensures |r.0| == if n <= |BurnFront(deck)| then n else |BurnFront(deck)|
  {
    var d := BurnFront(deck);
    if n <= |d| then (d[..n], d[n..]) else (d, [])
  }

  /** `retain(|p| p.name != name)`: the seats that keep their place, in
      order, are exactly those with another name. */
  function Retain(ps: seq<Player>, name: string): (r: seq<Player>)
    ensures forall i :: 0 <= i < |r| ==> r[i] in ps && r[i].name != name
    ensures forall i :: 0 <= i < |ps| && ps[i].name != name ==> ps[i] in r
    ensures |r| <= |ps|
  {
    if ps == [] then []
    else if ps[0].name != name then [ps[0]] + Retain(ps[1..], name)
    else Retain(ps[1..], name)
  }

  /** Retaining keeps the seats' order: filtering a table split in two is
      filtering each part, the first part's survivors first. */
  lemma {:induction false} RetainSplits(a: seq<Player>, b: seq<Player>, name: string)
    ensures Retain(a + b, name) == Retain(a, name) + Retain(b, name)
  {
    if a != [] {
      assert (a + b)[0] == a[0];
      assert (a + b)[1..] == a[1..] + b;
      RetainSplits(a[1..], b, name);
    } else {
      assert a + b == b;
    }
  }

  /** With no seat of that name, retaining keeps the whole table as it is. */
  lemma {:induction false} RetainNoneRemoved(ps: seq<Player>, name: string)
    requires forall i :: 0 <= i < |ps| ==> ps[i].name != name
    ensures Retain(ps, name) == ps
  {
    if ps != [] {
      RetainNoneRemoved(ps[1..], name);
    }
  }

  /** The locals of `simulate_betting`: the bet to match and the chips
      moved so far this street. */
  datatype Bets = Bets(currentBet: nat, potInRound: nat)

  /** `current_bet.saturating_sub(bet_in_round)`. */
  function CallAmount(b: Bets, s: Stake): (n: nat)
    ensures s.betInRound + n >= b.currentBet
    ensures n == 0 || s.betInRound + n == b.currentBet
  {
    if b.currentBet > s.betInRound then b.currentBet - s.betInRound else 0
  }

  /** One turn of `simulate_betting` for a seat holding stake `s`. A seat
      without chips is skipped. A call pays what the seat is short of the
      current bet; a raise names the new current bet, which must exceed the
      old one, and pays the difference to the seat's wager. Every chip the
      seat pays goes to the street's pot, and afterwards the seat's wager
      is still covered by the current bet. That cover is also what the
      turn requires: wagers start the street at 0 and every call or raise
      leaves them at most the current bet, so it holds at every turn of
      the loop, and it keeps `raise_to - bet_in_round` from going below
      zero. */
  function ActOn(b: Bets, s: Stake, action: Action): (r: Result<(Bets, Stake), GameError>)
    requires s.betInRound <= b.currentBet
    ensures s.chips == 0 || action == Fold ==> r == Ok((b, s))
    ensures r.Err? <==>
      s.chips > 0 &&
      ((action.Call? && CallAmount(b, s) > s.chips)
       || (action.Raise? && (action.amount <= b.currentBet || action.amount - s.betInRound > s.chips)))
    ensures r.Err? ==> r.error == if action.Raise? && action.amount <= b.currentBet then InvalidAction else GameError.InsufficientChips
    ensures r.Ok? ==> r.value.1.chips + r.value.0.potInRound == s.chips + b.potInRound
    ensures r.Ok? ==> r.value.1.chips + r.value.1.betInRound == s.chips + s.betInRound
    ensures r.Ok? ==> b.currentBet <= r.value.0.currentBet && r.value.1.betInRound <= r.value.0.currentBet
    ensures r.Ok? && s.chips > 0 && action.Call? ==> r.value.0.currentBet == b.currentBet == r.value.1.betInRound
    ensures r.Ok? && s.chips > 0 && action.Raise? ==> r.value.0.currentBet == action.amount == r.value.1.betInRound
  {
    if s.chips == 0 then Ok((b, s))
    else match action
      case Fold => Ok((b, s))
      case Call =>
        var amount := CallAmount(b, s);
        if amount == 0 then Ok((b, s))
        else (match PlaceBetOn(s, amount)
          case Err(_) => Err(GameError.InsufficientChips)
          case Ok(s') => Ok((Bets(b.currentBet, b.potInRound + amount), s')))
      case Raise(to) =>
        if to <= b.currentBet then Err(InvalidAction)
        else (match PlaceBetOn(s, to - s.betInRound)
          case Err(_) => Err(GameError.InsufficientChips)
          case Ok(s') => Ok((Bets(to, b.potInRound + (to - s.betInRound)), s')))
  }

  /** The deck, front first, and the seats' hands, in seat order. */
  datatype Deal = Deal(deck: seq<Card>, hands: seq<seq<Card>>)

  /** Every seat from `i` on has room for `m` more cards under its bound. */
  predicate RoomFrom(hands: seq<seq<Card>>, caps: seq<nat>, i: nat, m: nat)
    requires |hands| == |caps|
  {
    forall k :: i <= k < |hands| ==> |hands[k]| + m <= caps[k]
  }

  /** One pop of `deal_player_cards` for seat `k`: an empty deck fails with
      nothing moved; a full hand fails after the card left the deck;
      otherwise the front card joins the hand. */
  function GiveFront(s: Deal, caps: seq<nat>, k: nat): (r: (Deal, Result<(), GameError>))
    requires k < |s.hands| == |caps|
    ensures |r.0.hands| == |s.hands|
  {
    if s.deck == [] then (s, Err(NotEnoughCards))
    else if |s.hands[k]| >= caps[k] then (Deal(s.deck[1..], s.hands), Err(PlayerHandFull))
    else (Deal(s.deck[1..], s.hands[k := s.hands[k] + [s.deck[0]]]), Ok(()))
  }

  /** The rest of one pass of `deal_player_cards`, from seat `i`, stopping
      at the first failure. */
  function PassFrontFrom(s: Deal, caps: seq<nat>, i: nat): (r: (Deal, Result<(), GameError>))
    requires i <= |s.hands| == |caps|
    ensures |r.0.hands| == |s.hands|
    decreases |s.hands| - i
  {
    if i == |s.hands| then (s, Ok(()))
    else
      var g := GiveFront(s, caps, i);
      if g.1.Err? then g else PassFrontFrom(g.0, caps, i + 1)
  }

  /** `deal_player_cards`: two passes, the second only if the first
      succeeded. */
  function DealFront(s: Deal, caps: seq<nat>): (r: (Deal, Result<(), GameError>))
    requires |s.hands| == |caps|
    ensures |r.0.hands| == |s.hands|
  {
    var p := PassFrontFrom(s, caps, 0);
    if p.1.Err? then p else PassFrontFrom(p.0, caps, 0)
  }

  lemma PassFrontStep(s: Deal, caps: seq<nat>, i: nat)
    requires i < |s.hands| == |caps|
    ensures GiveFront(s, caps, i).1.Err? ==> PassFrontFrom(s, caps, i) == GiveFront(s, caps, i)
    ensures GiveFront(s, caps, i).1.Ok? ==> PassFrontFrom(s, caps, i) == PassFrontFrom(GiveFront(s, caps, i).0, caps, i + 1)
  {
  }

  /** A pass from seat `i` succeeds exactly when the deck holds a card for
      every remaining seat and each of them has room; when it fails, a lack
      of cards is reported unless some seat is full first. */
  lemma {:induction false} PassFrontOutcome(s: Deal, caps: seq<nat>, i: nat)
    requires i <= |s.hands| == |caps|
    ensures PassFrontFrom(s, caps, i).1.Ok? <==> |s.hands| - i <= |s.deck| && RoomFrom(s.hands, caps, i, 1)
    ensures PassFrontFrom(s, caps, i).1.Err? && RoomFrom(s.hands, caps, i, 1) ==>
      PassFrontFrom(s, caps, i).1.error == NotEnoughCards
    ensures PassFrontFrom(s, caps, i).1.Err? && |s.hands| - i <= |s.deck| ==>
      PassFrontFrom(s, caps, i).1.error == PlayerHandFull
    decreases |s.hands| - i
  {
    if i < |s.hands| {
      var g := GiveFront(s, caps, i);
      if g.1.Ok? {
        PassFrontOutcome(g.0, caps, i + 1);
        assert RoomFrom(g.0.hands, caps, i + 1, 1) <==> RoomFrom(s.hands, caps, i + 1, 1) by {
          assert forall k :: i + 1 <= k < |s.hands| ==> g.0.hands[k] == s.hands[k];
        }
      }
    }
  }

  /** A successful pass from seat `i` gives each remaining seat, in order,
      the next front card, and leaves the earlier seats alone. */
  lemma {:induction false} PassFrontFills(s: Deal, caps: seq<nat>, i: nat)
    requires i <= |s.hands| == |caps| && |s.hands| - i <= |s.deck|
    requires PassFrontFrom(s, caps, i).1.Ok?
    ensures PassFrontFrom(s, caps, i).0.deck == s.deck[|s.hands| - i..]
    ensures forall k :: 0 <= k < i ==> PassFrontFrom(s, caps, i).0.hands[k] == s.hands[k]
    ensures forall k :: i <= k < |s.hands| ==> PassFrontFrom(s, caps, i).0.hands[k] == s.hands[k] + [s.deck[k - i]]
    decreases |s.hands| - i
  {
    if i < |s.hands| {
      var g := GiveFront(s, caps, i);
      assert g.0.deck == s.deck[1..];
      PassFrontFills(g.0, caps, i + 1);
    }
  }

  /** `deal_player_cards` succeeds exactly when the deck holds two cards per
      seat and every seat has room for two; then seat `k` of `n` receives
      the `k`-th and the `(n + k)`-th card from the front. */
  lemma DealFrontOutcome(s: Deal, caps: seq<nat>)
    requires |s.hands| == |caps|
    ensures DealFront(s, caps).1.Ok? <==> 2 * |s.hands| <= |s.deck| && RoomFrom(s.hands, caps, 0, 2)
    ensures DealFront(s, caps).1.Err? && RoomFrom(s.hands, caps, 0, 2) ==> DealFront(s, caps).1.error == NotEnoughCards
    ensures DealFront(s, caps).1.Err? && 2 * |s.hands| <= |s.deck| ==> DealFront(s, caps).1.error == PlayerHandFull
  {
    PassFrontOutcome(s, caps, 0);
    var p := PassFrontFrom(s, caps, 0);
    if p.1.Ok? {
      PassFrontFills(s, caps, 0);
      PassFrontOutcome(p.0, caps, 0);
      assert RoomFrom(p.0.hands, caps, 0, 1) <==> RoomFrom(s.hands, caps, 0, 2) by {
        assert forall k :: 0 <= k < |s.hands| ==> |p.0.hands[k]| == |s.hands[k]| + 1;
      }
    }
  }

  /** With two cards per seat in the deck and room for them, the deal
      succeeds and takes the first `2n` cards, seat `k` receiving the
      `k`-th and the `(n + k)`-th. */
  lemma DealFrontFills(s: Deal, caps: seq<nat>)
    requires |s.hands| == |caps| && 2 * |s.hands| <= |s.deck| && RoomFrom(s.hands, caps, 0, 2)
    ensures DealFront(s, caps).1.Ok?
    ensures DealFront(s, caps).0.deck == s.deck[2 * |s.hands|..]
    ensures forall k :: 0 <= k < |s.hands| ==>
      DealFront(s, caps).0.hands[k] == s.hands[k] + [s.deck[k], s.deck[|s.hands| + k]]
  {
    DealFrontOutcome(s, caps);
    var n := |s.hands|;
    var p := PassFrontFrom(s, caps, 0);
    PassFrontFills(s, caps, 0);
    PassFrontFills(p.0, caps, 0);
    forall k | 0 <= k < n
      ensures DealFront(s, caps).0.hands[k] == s.hands[k] + [s.deck[k], s.deck[n + k]]
    {
      assert p.0.deck[k] == s.deck[n + k];
      assert s.hands[k] + [s.deck[k]] + [s.deck[n + k]] == s.hands[k] + [s.deck[k], s.deck[n + k]];
    }
  }

  /** Dealing hole cards to `n` empty hands of a two-card game: it
      succeeds exactly when the deck holds `2n` cards, failing for lack of
      cards otherwise, and then seat `k` holds the `k`-th and the
      `(n + k)`-th card from the front. */
  lemma DealFrontFromEmpty(d: seq<Card>, hands: seq<seq<Card>>, caps: seq<nat>)
    requires |hands| == |caps|
    requires forall k :: 0 <= k < |hands| ==> hands[k] == [] && caps[k] == 2
    ensures DealFront(Deal(d, hands), caps).1.Ok? <==> 2 * |hands| <= |d|
    ensures DealFront(Deal(d, hands), caps).1.Err? ==> DealFront(Deal(d, hands), caps).1.error == NotEnoughCards
    ensures DealFront(Deal(d, hands), caps).1.Ok? ==>
              && DealFront(Deal(d, hands), caps).0.deck == d[2 * |hands|..]
              && forall k :: 0 <= k < |hands| ==> DealFront(Deal(d, hands), caps).0.hands[k] == [d[k], d[|hands| + k]]
  {
    var s := Deal(d, hands);
    assert RoomFrom(hands, caps, 0, 2);
    DealFrontOutcome(s, caps);
    if 2 * |hands| <= |d| {
      DealFrontFills(s, caps);
    }
  }

  class PokerGame {
    var players: seq<Player>
    /** The `VecDeque`; index 0 is its front. */
    var deck: seq<Card>
    var pot: nat
    var communityCards: seq<Card>
    var rounds: BettingRound
    /** The seats' hands, in seat order. */
    ghost var hands: seq<seq<Card>>

    /** Distinct seats, each within its hole-card bound, whose hands
        `hands` mirrors. */
    ghost predicate Valid()
      reads this, players
    {
      (forall i, j :: 0 <= i < j < |players| ==> players[i] != players[j])
      && (forall i :: 0 <= i < |players| ==> players[i].Valid())
      && |hands| == |players|
      && (forall i :: 0 <= i < |players| ==> hands[i] == players[i].hand)
    }

    /** The seats' hole-card bounds, in seat order. */
    function Caps(): (caps: seq<nat>)
      reads this`players
      ensures |caps| == |players|
    {
      var ps := players;
      seq(|ps|, i requires 0 <= i < |ps| => HoleCards(ps[i].gameVariant))
    }

    /** The deck and the hands as a value. */
    ghost function Cards(): Deal
      reads this
    {
      Deal(deck, hands)
    }

    /** `PokerGame::new`, with the initialised and shuffled deck supplied
        by the caller. */
    constructor (deck: seq<Card>)
      ensures Valid() && players == [] && this.deck == deck
      ensures pot == 0 && communityCards == [] && rounds == Preflop
    {
      players := [];
      this.deck := deck;
      pot := 0;
      communityCards := [];
      rounds := Preflop;
      hands := [];
    }

    /** `bet`: the stake moves exactly as `place_bet` would move it, with
        the refusal reported as this driver's error. */
    method Bet(player: Player, amount: nat) returns (r: Result<(), GameError>)
      modifies player`chips, player`betInRound
      ensures r.Ok? <==> PlaceBetOn(old(player.GetStake()), amount).Ok?
      ensures r.Err? ==> r.error == GameError.InsufficientChips && player.GetStake() == old(player.GetStake())
      ensures r.Ok? ==> player.GetStake() == PlaceBetOn(old(player.GetStake()), amount).value
    {
      if amount > player.chips {
        return Err(GameError.InsufficientChips);
      }
      player.chips := player.chips - amount;
      player.betInRound := player.betInRound + amount;
      r := Ok(());
    }

    /** One action of `simulate_betting`: the seat's stake and the street's
        bets move as `ActOn` says, and a fold drops every seat of that name
        from the active list. */
    method Act(b: Bets, active: seq<Player>, player: Player, action: Action)
      returns (r: Result<(Bets, seq<Player>), GameError>)
      requires player.betInRound <= b.currentBet
      modifies player`chips, player`betInRound
      ensures r.Ok? <==> ActOn(b, old(player.GetStake()), action).Ok?
      ensures r.Err? ==> r.error == ActOn(b, old(player.GetStake()), action).error
      ensures r.Err? ==> player.GetStake() == old(player.GetStake())
      ensures r.Ok? ==> (r.value.0, player.GetStake()) == ActOn(b, old(player.GetStake()), action).value
      ensures r.Ok? ==> r.value.1 == if action == Fold && old(player.chips) > 0 then Retain(active, player.name) else active
    {
      if player.chips == 0 {
        return Ok((b, active));
      }
      match action
      case Fold =>
        r := Ok((b, Retain(active, player.name)));
      case Call =>
        var amount := CallAmount(b, player.GetStake());
        if amount > 0 {
          var paid := Bet(player, amount);
          if paid.Err? {
            return Err(paid.error);
          }
          r := Ok((Bets(b.currentBet, b.potInRound + amount), active));
        } else {
          r := Ok((b, active));
        }
      case Raise(to) =>
        if to <= b.currentBet {
          return Err(InvalidAction);
        }
        var amount := to - player.betInRound;
        var paid := Bet(player, amount);
        if paid.Err? {
          return Err(paid.error);
        }
        r := Ok((Bets(to, b.potInRound + amount), active));
    }

    /** The end of `simulate_betting`: the street's chips join the pot and
        every seat's wager is reset; stacks and hands are untouched. */
    method EndStreet(potInRound: nat)
      modifies this`pot, players`betInRound
      ensures pot == old(pot) + potInRound
      ensures forall k :: 0 <= k < |players| ==>
        players[k].GetStake() == ResetBetOn(old(players[k].GetStake())) && players[k].hand == old(players[k].hand)
    {
      pot := pot + potInRound;
      for k := 0 to |players|
        invariant pot == old(pot) + potInRound
        invariant forall j :: 0 <= j < k ==> players[j].betInRound == 0
      {
        players[k].ResetBetInRound();
      }
    }

    /** One pass of `deal_player_cards`: seat by seat, the front card goes
        to the seat, and the first failure is returned at once. */
    method DealPass() returns (r: Result<(), GameError>)
      requires Valid()
      modifies this`deck, this`hands, players`hand
      ensures Valid()
      ensures (Cards(), r) == PassFrontFrom(old(Cards()), Caps(), 0)
    {
      ghost var start := Cards();
      for k := 0 to |players|
        invariant Valid()
        invariant PassFrontFrom(Cards(), Caps(), k) == PassFrontFrom(start, Caps(), 0)
      {
        PassFrontStep(Cards(), Caps(), k);
        r := GiveOne(k);
        if r.Err? {
          return;
        }
      }
      r := Ok(());
    }

    /** One pop of `deal_player_cards` for seat `k`. */
    method GiveOne(k: nat) returns (r: Result<(), GameError>)
      requires Valid() && k < |players|
      modifies this`deck, this`hands, players`hand
      ensures Valid() && (Cards(), r) == GiveFront(old(Cards()), Caps(), k)
    {
      if deck == [] {
        return Err(NotEnoughCards);
      }
      var card := deck[0];
      deck := deck[1..];
      var received := players[k].ReceiveCard(card);
      if received.Err? {
        return Err(PlayerHandFull);
      }
      hands := hands[k := hands[k] + [card]];
      r := Ok(());
    }

    /** `deal_player_cards`: two passes of the front card round the table,
        as `DealFront` says; `DealFrontOutcome` and `DealFrontFills` give
        when it succeeds and what each seat then holds. */
    method DealPlayerCards() returns (r: Result<(), GameError>)
      requires Valid()
      modifies this`deck, this`hands, players`hand
      ensures Valid()
      ensures (Cards(), r) == DealFront(old(Cards()), Caps())
    {
      ghost var start := Cards();
      for pass := 0 to 2
        invariant Valid()
        invariant pass == 0 ==> Cards() == start
        invariant pass == 1 ==> (Cards(), Ok(())) == PassFrontFrom(start, Caps(), 0)
        invariant pass == 2 ==> (Cards(), Ok(())) == DealFront(start, Caps())
      {
        r := DealPass();
        if r.Err? {
          return;
        }
        assert r.value == ();
      }
      r := Ok(());
    }

    /** `deal_community_cards`: the front card is burned if there is one,
        then up to `numCards` front cards go to the board, as `FrontDeal`
        says. It fails with `NotEnoughCards` exactly when too few cards
        remain after the burn, keeping the cards dealt before the failure. */
    method DealCommunityCards(numCards: nat) returns (r: Result<(), GameError>)
      modifies this`deck, this`communityCards
      ensures communityCards == old(communityCards) + FrontDeal(old(deck), numCards).0
      ensures deck == FrontDeal(old(deck), numCards).1
      ensures r.Ok? <==> numCards <= |BurnFront(old(deck))|
      ensures r.Err? ==> r.error == NotEnoughCards
    {
      if deck != [] {
        deck := deck[1..];
      }
      ghost var d := deck;
      for k := 0 to numCards
        invariant k <= |d| && deck == d[k..]
        invariant communityCards == old(communityCards) + d[..k]
      {
        if deck == [] {
          assert d[..k] == d;
          return Err(NotEnoughCards);
        }
        communityCards := communityCards + [deck[0]];
        deck := deck[1..];
        assert d[..k + 1] == d[..k] + [d[k]];
      }
      r := Ok(());
    }

    /** The street loop of `simulate_round`, whose betting is not part of
        this model: Flop, Turn and River each burn one card and deal 3, 1
        and 1. It succeeds exactly when the deck holds at least eight
        cards, leaving the round at Final with the five board cards taken
        from the front between the burns. */
    method PlayStreets() returns (r: Result<(), GameError>)
      requires rounds == Preflop
      modifies this`deck, this`communityCards, this`rounds
      ensures r.Ok? <==> 8 <= old(|deck|)
      ensures r.Err? ==> r.error == NotEnoughCards
      ensures r.Ok? ==> rounds == Final && deck == old(deck)[8..]
      ensures r.Ok? ==> communityCards == old(communityCards) + BoardBefore(old(deck), Final)
    {
      ghost var d := deck;
      ghost var b := communityCards;
      while rounds != Final
        invariant DeckUsedBefore(rounds) <= |d| && deck == d[DeckUsedBefore(rounds)..]
        invariant communityCards == b + BoardBefore(d, rounds)
        decreases 4 - StreetIndex(rounds)
      {
        var n := StreetCards(rounds);
        StreetUsesDeck(rounds);
        if n > 0 {
          r := DealCommunityCards(n);
          if r.Err? {
            return;
          }
          StreetsDealInOrder(d, rounds);
        }
        rounds := NextStreet(rounds);
      }
      r := Ok(());
    }

    /** The seating of `simulate_round`: one new seat per name, in order,
        each with the starting stack, an empty hand and no wager. */
    method SeatPlayers(names: seq<string>)
      modifies this`players, this`hands
      ensures Valid() && |players| == |names|
      ensures forall i :: 0 <= i < |names| ==> fresh(players[i])
      ensures forall i :: 0 <= i < |names| ==>
                && players[i].name == names[i] && players[i].hand == []
                && players[i].GetStake() == Stake(StartingChips, 0)
                && players[i].playerType == Human && players[i].gameVariant == TexasHoldem
    {
      var seats: seq<Player> := [];
      for i := 0 to |names|
        invariant |seats| == i
        invariant forall j, k :: 0 <= j < k < i ==> seats[j] != seats[k]
        invariant forall j :: 0 <= j < i ==>
                    && fresh(seats[j]) && seats[j].Valid()
                    && seats[j].name == names[j] && seats[j].hand == []
                    && seats[j].GetStake() == Stake(StartingChips, 0)
                    && seats[j].playerType == Human && seats[j].gameVariant == TexasHoldem
      {
        var p := new Player(names[i], StartingChips, Human, TexasHoldem);
        seats := seats + [p];
      }
      players := seats;
      hands := seq(|seats|, _ => []);
    }

    /** `simulate_round` without its betting and its winner: the named
        seats are seated, the pot and the board are reset, two hole cards
        go to every seat from the front of the deck and the five board
        cards follow between burns. The round runs to Final exactly when
        the deck holds at least two cards per seat and eight more. */
    method SimulateRound(names: seq<string>) returns (r: Result<(), GameError>)
      modifies this
      ensures r.Ok? <==> 2 * |names| + 8 <= old(|deck|)
      ensures r.Err? ==> r.error == NotEnoughCards
      ensures Valid() && |players| == |names| && pot == 0
      ensures forall i :: 0 <= i < |names| ==>
                fresh(players[i]) && players[i].name == names[i] && players[i].GetStake() == Stake(StartingChips, 0)
      ensures r.Ok? ==>
                var d, n := old(deck), |names|;
                && rounds == Final && deck == d[2 * n + 8..]
                && communityCards == BoardBefore(d[2 * n..], Final)
                && forall i :: 0 <= i < n ==> players[i].hand == [d[i], d[n + i]]
    {
      SeatPlayers(names);
      pot := 0;
      communityCards := [];
      rounds := Preflop;
      r := DealAndPlay();
    }

    /** The cards of `simulate_round` once the seats are new: the hole
        cards, then the streets. */
    method DealAndPlay() returns (r: Result<(), GameError>)
      requires Valid() && rounds == Preflop && communityCards == []
      requires forall i :: 0 <= i < |players| ==> hands[i] == [] && players[i].gameVariant == TexasHoldem
      modifies this`deck, this`hands, this`communityCards, this`rounds, players`hand
      ensures Valid()
      ensures r.Ok? <==> 2 * |players| + 8 <= old(|deck|)
      ensures r.Err? ==> r.error == NotEnoughCards
      ensures r.Ok? ==>
                var d, n := old(deck), |players|;
                && rounds == Final && deck == d[2 * n + 8..]
                && communityCards == BoardBefore(d[2 * n..], Final)
                && forall i :: 0 <= i < n ==> players[i].hand == [d[i], d[n + i]]
    {
      ghost var s := Cards();
      DealFrontFromEmpty(s.deck, s.hands, Caps());
      r := DealPlayerCards();
      if r.Err? {
        return;
      }
      ghost var d2 := deck;
      r := PlayStreets();
      if r.Ok? {
        assert d2[8..] == s.deck[2 * |players| + 8..];
      }
    }
  }
}
