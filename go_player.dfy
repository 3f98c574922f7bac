/** The Go prototype's player: go/player.go. Its `int` is modelled as an
    unbounded integer. */
module GoPlayers {

  /** The Go card: free-text suit and rank, and a numeric value. */
  datatype Card = Card(suit: string, rank: string, value: int)

  /** `Bet` on a bare stack: refused when the amount is above the stack,
      otherwise the stack drops by the amount. Nothing stops a negative
      amount, which a non-negative stack accepts and grows by. */
  function BetOn(chips: int, amount: int): (r: (bool, int))
    ensures r.0 <==> amount <= chips
    ensures !r.0 ==> r.1 == chips
    ensures r.0 ==> r.1 + amount == chips
    ensures r.0 && chips >= 0 && amount >= 0 ==> 0 <= r.1 <= chips
    ensures amount < 0 <= chips ==> r.0 && r.1 > chips
  {
    if amount > chips then (false, chips) else (true, chips - amount)
  }

  /** The stack after a series of bets, each refused or taken as `Bet`
      would. */
  function BetAll(chips: int, amounts: seq<int>): int
    decreases |amounts|
  {
    if |amounts| == 0 then chips
    else BetAll(BetOn(chips, amounts[0]).1, amounts[1..])
  }

  /** The chips the accepted bets of a series take, when starting from
      `chips`. */
  function TakenBy(chips: int, amounts: seq<int>): int
    decreases |amounts|
  {
    if |amounts| == 0 then 0
    else
      var (ok, rest) := BetOn(chips, amounts[0]);
      (if ok then amounts[0] else 0) + TakenBy(rest, amounts[1..])
  }

  /** Starting from a non-negative stack, bets that are never negative
      keep it non-negative and never grow it, and the stack drops by
      exactly what the accepted bets took. */
  lemma {:induction false} BetsKeepStackNonNegative(chips: int, amounts: seq<int>)
    requires chips >= 0
    requires forall i :: 0 <= i < |amounts| ==> amounts[i] >= 0
    ensures 0 <= BetAll(chips, amounts) <= chips
    ensures BetAll(chips, amounts) + TakenBy(chips, amounts) == chips
  {
    if |amounts| > 0 {
      var rest := BetOn(chips, amounts[0]).1;
      BetsKeepStackNonNegative(rest, amounts[1..]);
    }
  }

  class Player {
    var name: string
    var chips: int
    var hand: seq<Card>
    var folded: bool

    /** `NewPlayer`: the starting stack, an empty hand, not folded. */
    constructor(name: string, startingChips: int)
      ensures this.name == name && chips == startingChips
      ensures hand == [] && !folded
    {
      this.name := name;
      chips := startingChips;
      hand := [];
      folded := false;
    }

    /** `ReceiveCard`: appends, with no limit on the hand. */
    method ReceiveCard(card: Card)
      modifies this`hand
      ensures hand == old(hand) + [card]
    {
      hand := hand + [card];
    }

    /** `Bet`: reports whether the amount was taken, and takes it only
        then. */
    method Bet(amount: int) returns (ok: bool)
      modifies this`chips
      ensures (ok, chips) == BetOn(old(chips), amount)
    {
      if amount > chips {
        return false;
      }
      chips := chips - amount;
      return true;
    }

    /** `Fold`: marks the player folded; the stack and hand are untouched,
        so folding twice is folding once. */
    method Fold()
      modifies this`folded
      ensures folded
    {
      folded := true;
    }
  }
}
