/** The seat of rust/src/poker/player.rs: a hand bounded by the variant, a
    stack, the wager of the current street and an optional position. */
module Players {
  import opened Wrappers
  import opened Cards
  import opened Variants
  import opened Positions
  import Decks

  /** The three actions of this player type. */
  datatype Action = Fold | Call | Raise(amount: nat)

  datatype PlayerType = Human | Bot

  datatype PlayerError =
    | TooManyCards
    | InvalidInput
    | InvalidRaiseAmount
    | InsufficientChips
    | IoError
    | InvalidCardCount
    | CardError(cardError: Cards.CardError)
    | DeckError(deckError: Decks.DeckError)

  /** The chip side of a seat: the stack and the wager of this street. */
  datatype Stake = Stake(chips: nat, betInRound: nat)

  /** What `place_bet` does to a stake. */
  function PlaceBetOn(s: Stake, amount: nat): (r: Result<Stake, PlayerError>)
    ensures r.Err? <==> amount > s.chips
    ensures r.Err? ==> r.error == InsufficientChips
    ensures r.Ok? ==> r.value.betInRound == s.betInRound + amount
    ensures r.Ok? ==> r.value.chips + r.value.betInRound == s.chips + s.betInRound
  {
    if amount > s.chips then Err(InsufficientChips)
    else Ok(Stake(s.chips - amount, s.betInRound + amount))
  }

  /** What `reset_bet_in_round` does to a stake. */
  function ResetBetOn(s: Stake): (r: Stake)
    ensures r.chips == s.chips && r.betInRound == 0
  {
    Stake(s.chips, 0)
  }

  function Sum(xs: seq<nat>): nat {
    if xs == [] then 0 else xs[0] + Sum(xs[1..])
  }

  /** A run of streets in which the seat bets `bets[k]` on street `k`, each
      street ending with `reset_bet_in_round`; the first refused bet stops
      the run. */
  function PlayStreets(s: Stake, bets: seq<nat>): Result<Stake, PlayerError>
    decreases |bets|
  {
    if bets == [] then Ok(s)
    else match PlaceBetOn(s, bets[0])
      case Err(e) => Err(e)
      case Ok(s') => PlayStreets(ResetBetOn(s'), bets[1..])
  }

  /** Across street resets the stack falls by exactly the sum of the bets,
      and the run is refused exactly when the bets add up to more than the
      stack. */
  lemma {:induction false} StreetsCostSumOfBets(s: Stake, bets: seq<nat>)
    ensures PlayStreets(s, bets).Ok? <==> Sum(bets) <= s.chips
    ensures PlayStreets(s, bets).Ok? ==>
      PlayStreets(s, bets).value.chips == s.chips - Sum(bets)
    ensures bets != [] && PlayStreets(s, bets).Ok? ==> PlayStreets(s, bets).value.betInRound == 0
    decreases |bets|
  {
    if bets != [] {
      if bets[0] <= s.chips {
        StreetsCostSumOfBets(ResetBetOn(PlaceBetOn(s, bets[0]).value), bets[1..]);
      }
    }
  }

  class Player {
    const name: string
    var hand: seq<Card>
    var chips: nat
    var betInRound: nat
    var position: Option<Position>
    const playerType: PlayerType
    const gameVariant: PokerVariant

    /** The hand never holds more than the variant's hole cards. */
    ghost predicate Valid()
      reads this
    {
      |hand| <= HoleCards(gameVariant)
    }

    function GetStake(): Stake
      reads this
    {
      Stake(chips, betInRound)
    }

    /** `Player::new`. */
    constructor (name: string, buyIn: nat, playerType: PlayerType, variant: PokerVariant)
      ensures Valid()
      ensures this.name == name && this.playerType == playerType && gameVariant == variant
      ensures hand == [] && chips == buyIn && betInRound == 0 && position == None
    {
      this.name := name;
      this.playerType := playerType;
      this.gameVariant := variant;
      hand := [];
      chips := buyIn;
      betInRound := 0;
      position := None;
    }

    /** `set_position`. */
    method SetPosition(p: Position)
      modifies this`position
      ensures position == Some(p)
    {
      position := Some(p);
    }

    /** `adjust_position`: the same update as `set_position`. */
    method AdjustPosition(p: Position)
      modifies this`position
      ensures position == Some(p)
    {
      position := Some(p);
    }

    /** `receive_card`: refused once the hand is complete. */
    method ReceiveCard(card: Card) returns (r: Result<(), PlayerError>)
      requires Valid()
      modifies this`hand
      ensures Valid()
      ensures r.Ok? <==> old(|hand|) < HoleCards(gameVariant)
      ensures r.Err? ==> r.error == TooManyCards && hand == old(hand)
      ensures r.Ok? ==> hand == old(hand) + [card]
    {
      if |hand| >= HoleCards(gameVariant) {
        return Err(TooManyCards);
      }
      hand := hand + [card];
      r := Ok(());
    }

    /** `has_complete_hand`. */
    predicate HasCompleteHand(): (b: bool)
      reads this
      ensures b ==> Valid()
      ensures Valid() && !b ==> |hand| < HoleCards(gameVariant)
    {
      |hand| == HoleCards(gameVariant)
    }

    /** `clear_hand`: afterwards the hand is never complete. */
    method ClearHand()
      modifies this`hand
      ensures hand == [] && Valid() && !HasCompleteHand()
    {
      hand := [];
    }

    /** `get_bot_action`: the bot folds whatever the bet. */
    function GetBotAction(currentBet: nat): (r: Result<Action, PlayerError>)
      ensures r == Ok(Fold)
    {
      Ok(Fold)
    }

    /** `place_bet`: moves `amount` from the stack to the street wager, or
        refuses and changes nothing. */
    method PlaceBet(amount: nat) returns (r: Result<(), PlayerError>)
      modifies this`chips, this`betInRound
      ensures r.Ok? <==> PlaceBetOn(old(GetStake()), amount).Ok?
      ensures r.Err? ==> r.error == InsufficientChips && GetStake() == old(GetStake())
      ensures r.Ok? ==> GetStake() == PlaceBetOn(old(GetStake()), amount).value
      ensures chips + betInRound == old(chips + betInRound)
    {
      if amount > chips {
        return Err(InsufficientChips);
      }
      chips := chips - amount;
      betInRound := betInRound + amount;
      r := Ok(());
    }

    /** `win_pot`: only the stack grows. */
    method WinPot(amount: nat)
      modifies this`chips
      ensures chips == old(chips) + amount
    {
      chips := chips + amount;
    }

    /** `reset_bet_in_round`: the stack is untouched. */
    method ResetBetInRound()
      modifies this`betInRound
      ensures GetStake() == ResetBetOn(old(GetStake()))
    {
      betInRound := 0;
    }
  }
}
