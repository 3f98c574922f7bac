/** The older interactive player: src/players/human_player.rs. One decision
    is modelled on a supplied input; where the source would print a message
    and go round its input loop again, the model answers `AskAgain` and
    changes nothing. */
module HumanPlayers {
  import opened Wrappers
  import opened Cards
  import opened Actions
  import opened Text
  import Players

  type Stake = Players.Stake

  datatype HumanError = RaiseMustBeAtLeast(currentBet: nat)

  /** Why the player is asked again. */
  datatype Prompt =
    | MustCallOrFold(currentBet: nat)   // "check" while a bet is open
    | RaiseRefused(error: HumanError)   // the raise path returned an error
    | InvalidAmount                     // the raise line is neither "allin" nor a u32
    | InvalidAction                     // none of the four action words

  /** The outcome of one pass through an input loop. */
  datatype Reply<T> = Done(value: T) | AskAgain(why: Prompt)

  function Total(s: Stake): nat {
    s.chips + s.betInRound
  }

  // ------------------------------------------------ the chip arithmetic

  /** `allin`: the whole stack moves into the round's bet, and the action
      reports the new bet. */
  function AllInOn(s: Stake): (r: (Stake, Action))
    ensures r.0.chips == 0 && Total(r.0) == Total(s)
    ensures r.1 == AllIn(r.0.betInRound)
  {
    var bet := s.betInRound + s.chips;
    (Players.Stake(0, bet), AllIn(bet))
  }

  /** `call(cb)`: a player who cannot cover the current bet goes all in;
      otherwise the whole current bet moves over, not only the part of it
      still missing from `betInRound`. */
  function CallOn(s: Stake, currentBet: nat): (r: (Stake, Action))
    ensures Total(r.0) == Total(s)
    ensures currentBet > s.chips ==> r == AllInOn(s)
    ensures currentBet <= s.chips ==>
              r.1 == Call && r.0.chips == s.chips - currentBet &&
              r.0.betInRound == s.betInRound + currentBet
  {
    if currentBet > s.chips then AllInOn(s)
    else (Players.Stake(s.chips - currentBet, s.betInRound + currentBet), Call)
  }

  /** `get_raise_with_input` on one line of text. "allin" and any amount
      above the stack go all in (the stack check comes first); an amount
      under twice the current bet is refused; anything that is not a `u32`
      asks again. */
  function RaiseOn(s: Stake, currentBet: nat, line: string): (r: (Stake, Reply<Result<Action, HumanError>>))
    ensures Total(r.0) == Total(s)
    ensures r.1.AskAgain? <==> line != "allin" && ParseU32(line).None?
    ensures r.1.AskAgain? ==> r.1.why == InvalidAmount && r.0 == s
    ensures r.1.Done? && r.1.value.Err? <==>
              line != "allin" && ParseU32(line).Some? &&
              ParseU32(line).value <= s.chips && ParseU32(line).value < 2 * currentBet
    ensures r.1.Done? && r.1.value.Err? ==>
              r.1.value.error == RaiseMustBeAtLeast(currentBet) && r.0 == s
    ensures r.1.Done? && r.1.value.Ok? && r.1.value.value.AllIn? ==> r == (AllInOn(s).0, Done(Ok(AllInOn(s).1)))
    ensures r.1.Done? && r.1.value.Ok? && r.1.value.value.Raise? ==>
              var amount := r.1.value.value.n;
              && ParseU32(line) == Some(amount)
              && 2 * currentBet <= amount <= s.chips
              && r.0 == Players.Stake(s.chips - amount, s.betInRound + amount)
    ensures r.1.Done? && r.1.value.Ok? ==> r.1.value.value.AllIn? || r.1.value.value.Raise?
  {
    if line == "allin" then (AllInOn(s).0, Done(Ok(AllInOn(s).1)))
    else match ParseU32(line)
      case None => (s, AskAgain(InvalidAmount))
      case Some(amount) =>
        if amount > s.chips then (AllInOn(s).0, Done(Ok(AllInOn(s).1)))
        else if amount < 2 * currentBet then (s, Done(Err(RaiseMustBeAtLeast(currentBet))))
        else (Players.Stake(s.chips - amount, s.betInRound + amount), Done(Ok(Raise(amount))))
  }

  // ------------------------------------------------------- the input text

  /** How the action input is read: lowercased, then trimmed. */
  function ActionWord(input: string): (w: string)
    ensures |w| <= |input|
    ensures forall i :: 0 <= i < |w| ==> !('A' <= w[i] <= 'Z')
    ensures |w| > 0 ==> !IsSpace(w[0]) && !IsSpace(w[|w| - 1])
  {
    LowerHasNoUpper(input);
    TrimKeepsNoUpper(Lower(input));
    Trim(Lower(input))
  }

  /** How a raise line from the terminal is read: every U+0020 removed,
      lowercased, then trimmed. */
  function RaiseWord(line: string): (w: string)
    ensures |w| <= |line|
    ensures ' ' !in w
    ensures forall i :: 0 <= i < |w| ==> !('A' <= w[i] <= 'Z')
    ensures |w| > 0 ==> !IsSpace(w[0]) && !IsSpace(w[|w| - 1])
  {
    LowerHasNoUpper(RemoveSpaces(line));
    TrimKeepsNoUpper(Lower(RemoveSpaces(line)));
    LowerRemovesNoSpace(RemoveSpaces(line));
    TrimKeepsOut(Lower(RemoveSpaces(line)), ' ');
    Trim(Lower(RemoveSpaces(line)))
  }

  /** `get_action_with_input` on a supplied input. The "raise" branch reads
      its amount from the terminal; that line is the parameter `raiseLine`.
      A refused raise asks for the action again; an unreadable amount asks
      again inside the raise loop, and the model reports both as
      `AskAgain`. */
  function DecideOn(s: Stake, currentBet: nat, input: string, raiseLine: string): (r: (Stake, Reply<Action>))
    ensures Total(r.0) == Total(s)
    ensures r.1.AskAgain? ==> r.0 == s
    ensures r.1 == Done(Check) <==>
              ActionWord(input) == "check" && currentBet == 0 && s.betInRound == 0
    ensures r.1 == Done(Check) ==> r.0 == s
    ensures ActionWord(input) == "check" && (currentBet > 0 || s.betInRound > 0) ==>
              r == (s, AskAgain(MustCallOrFold(currentBet)))
    ensures r.1 == Done(Fold) <==> ActionWord(input) == "fold"
    ensures r.1 == Done(Fold) ==> r.0 == s
    ensures ActionWord(input) == "call" ==> r == (CallOn(s, currentBet).0, Done(CallOn(s, currentBet).1))
    ensures ActionWord(input) == "raise" ==>
              var q := RaiseOn(s, currentBet, RaiseWord(raiseLine));
              && (r.1.Done? <==> q.1.Done? && q.1.value.Ok?)
              && (r.1.Done? ==> r == (q.0, Done(q.1.value.value)))
              && (q.1.Done? && q.1.value.Err? ==> r.1 == AskAgain(RaiseRefused(q.1.value.error)))
              && (q.1.AskAgain? ==> r.1 == AskAgain(q.1.why))
    ensures ActionWord(input) !in {"check", "fold", "call", "raise"} ==> r == (s, AskAgain(InvalidAction))
  {
    var word := ActionWord(input);
    if word == "check" then
      if currentBet > 0 || s.betInRound != currentBet then (s, AskAgain(MustCallOrFold(currentBet)))
      else (s, Done(Check))
    else if word == "fold" then (s, Done(Fold))
    else if word == "call" then
      var (t, a) := CallOn(s, currentBet);
      (t, Done(a))
    else if word == "raise" then
      var (t, reply) := RaiseOn(s, currentBet, RaiseWord(raiseLine));
      match reply
      case Done(Ok(a)) => (t, Done(a))
      case Done(Err(e)) => (s, AskAgain(RaiseRefused(e)))
      case AskAgain(why) => (s, AskAgain(why))
    else (s, AskAgain(InvalidAction))
  }

  /** Everything `to_lowercase` leaves alone is left alone by a second
      lowercasing. */
  lemma LowerOfLowered(s: string, lo: nat, hi: nat)
    requires lo <= hi <= |Lower(s)|
    ensures Lower(Lower(s)[lo..hi]) == Lower(s)[lo..hi]
  {
    var t := Lower(s)[lo..hi];
    assert forall i :: 0 <= i < |t| ==> t[i] == LowerChar(s[lo + i]);
    assert forall i :: 0 <= i < |t| ==> LowerChar(t[i]) == t[i];
  }

  /** Normalising an action word a second time changes nothing. */
  lemma ActionWordIdempotent(input: string)
    ensures ActionWord(ActionWord(input)) == ActionWord(input)
  {
    var l := Lower(input);
    var w := Trim(l);
    var lo := TrimStart(l);
    LowerOfLowered(input, lo, TrimEnd(l, lo, |l|));
    TrimUnpadded(w);
  }

  /** Case and surrounding white space do not matter: an input decides the
      same way as its own normalised form. */
  lemma DecideNormalised(s: Stake, currentBet: nat, input: string, raiseLine: string)
    ensures DecideOn(s, currentBet, ActionWord(input), raiseLine) == DecideOn(s, currentBet, input, raiseLine)
  {
    ActionWordIdempotent(input);
  }

  /** The raise sequence of the source's own unit test: from 100 chips,
      raises of 30 and 60 are taken, and 20 against a bet of 60 with 10
      chips left goes all in for 100. */
  lemma RaiseSequence()
    ensures RaiseOn(Players.Stake(100, 0), 10, "30") == (Players.Stake(70, 30), Done(Ok(Raise(30))))
    ensures RaiseOn(Players.Stake(70, 30), 30, "60") == (Players.Stake(10, 90), Done(Ok(Raise(60))))
    ensures RaiseOn(Players.Stake(10, 90), 60, "20") == (Players.Stake(0, 100), Done(Ok(AllIn(100))))
    ensures RaiseOn(Players.Stake(100, 0), 15, "20") == (Players.Stake(100, 0), Done(Err(RaiseMustBeAtLeast(15))))
  {
    assert ShowNat(30) == "30" && ShowNat(60) == "60" && ShowNat(20) == "20";
    ParseShowRoundTrip(30);
    ParseShowRoundTrip(60);
    ParseShowRoundTrip(20);
  }

  /** "Raise" reads as the action word "raise". */
  lemma RaiseWordRead()
    ensures ActionWord("Raise") == "raise"
  {
    assert Lower("Raise") == "raise";
    TrimUnpadded("raise");
  }

  /** The terminal line " 3 0 " reads as the amount "30". */
  lemma SpacedAmountRead()
    ensures RaiseWord(" 3 0 ") == "30"
  {
    assert RemoveSpaces(" 3 0 ") == "30";
    assert Lower("30") == "30";
    TrimUnpadded("30");
  }

  /** The "raise" branch reads its amount from the next terminal line,
      whatever its case and spacing: "Raise" against a bet of 10, then
      " 3 0 " on the terminal, raises 30 of a 100-chip stack; a line with
      no number asks again for the amount. */
  lemma DecideRaiseReadsLine()
    ensures DecideOn(Players.Stake(100, 0), 10, "Raise", " 3 0 ") == (Players.Stake(70, 30), Done(Raise(30)))
    ensures DecideOn(Players.Stake(100, 0), 10, "Raise", "x") == (Players.Stake(100, 0), AskAgain(InvalidAmount))
  {
    RaiseWordRead();
    SpacedAmountRead();
    RaiseSequence();
    assert RemoveSpaces("x") == "x" && Lower("x") == "x";
    TrimUnpadded("x");
    assert ParseU32("x") == None;
  }

  // ---------------------------------------------------------- the player

  class HumanPlayer {
    const name: string
    var hand: seq<Card>
    var chips: nat
    var betInRound: nat

    function GetStake(): Stake
      reads this
    {
      Players.Stake(chips, betInRound)
    }

    /** `HumanPlayer::new`: the given stack, an empty hand and no bet. */
    constructor(name: string, chips: nat)
      ensures this.name == name && hand == []
      ensures GetStake() == Players.Stake(chips, 0)
    {
      this.name := name;
      hand := [];
      this.chips := chips;
      betInRound := 0;
    }

    /** `receive_card`: appends, with no limit on the hand; the source
        always answers `Ok`. */
    method ReceiveCard(card: Card)
      modifies this`hand
      ensures hand == old(hand) + [card]
    {
      hand := hand + [card];
    }

    method Call(currentBet: nat) returns (a: Action)
      modifies this`chips, this`betInRound
      ensures (GetStake(), a) == CallOn(old(GetStake()), currentBet)
    {
      if currentBet > chips {
        a := AllInNow();
        return;
      }
      chips := chips - currentBet;
      betInRound := betInRound + currentBet;
      a := Action.Call;
    }

    /** `allin`. */
    method AllInNow() returns (a: Action)
      modifies this`chips, this`betInRound
      ensures (GetStake(), a) == AllInOn(old(GetStake()))
    {
      betInRound := betInRound + chips;
      chips := 0;
      a := AllIn(betInRound);
    }

    /** `win`: the pot goes to the stack. */
    method Win(pot: nat)
      modifies this`chips
      ensures chips == old(chips) + pot
    {
      chips := chips + pot;
    }

    /** `get_raise_with_input` with a supplied input, which is used as it
        is. */
    method GetRaiseWithInput(currentBet: nat, input: string) returns (r: Reply<Result<Action, HumanError>>)
      modifies this`chips, this`betInRound
      ensures (GetStake(), r) == RaiseOn(old(GetStake()), currentBet, input)
    {
      if input == "allin" {
        var a := AllInNow();
        return Done(Ok(a));
      }
      var parsed := ParseU32(input);
      if parsed.None? {
        return AskAgain(InvalidAmount);
      }
      var amount := parsed.value;
      if amount > chips {
        var a := AllInNow();
        return Done(Ok(a));
      }
      if amount < 2 * currentBet {
        return Done(Err(RaiseMustBeAtLeast(currentBet)));
      }
      chips := chips - amount;
      betInRound := betInRound + amount;
      return Done(Ok(Raise(amount)));
    }

    /** `get_action_with_input` with a supplied input; `raiseLine` is the
        terminal line the raise path reads. */
    method GetActionWithInput(currentBet: nat, input: string, raiseLine: string) returns (r: Reply<Action>)
      modifies this`chips, this`betInRound
      ensures (GetStake(), r) == DecideOn(old(GetStake()), currentBet, input, raiseLine)
    {
      var word := ActionWord(input);
      if word == "check" {
        if currentBet > 0 || betInRound != currentBet {
          return AskAgain(MustCallOrFold(currentBet));
        }
        return Done(Check);
      } else if word == "fold" {
        return Done(Fold);
      } else if word == "call" {
        var a := Call(currentBet);
        return Done(a);
      } else if word == "raise" {
        var reply := GetRaiseWithInput(currentBet, RaiseWord(raiseLine));
        match reply
        case Done(Ok(a)) => return Done(a);
        case Done(Err(e)) => return AskAgain(RaiseRefused(e));
        case AskAgain(why) => return AskAgain(why);
      }
      return AskAgain(InvalidAction);
    }
  }
}
