# Texas Hold'em table bookkeeping, in Dafny

This project models the chip, card and seat bookkeeping of a small Rust
poker engine (`rust/src/poker`), together with its older parallel
versions under `src/` and the Go prototype under `go/`. It covers:

- card construction with rank validation (`Cards`);
- the variants' hole-card and board sizes and their display names
  (`Variants`);
- the 52-card deck: refilled in a fixed order, shuffled, drawn from the
  back (`Decks`);
- the seat layouts and their rotation (`Positions`);
- the seat of a table, with a hand bounded by the variant and a stack
  with a per-street wager (`Players`);
- the Texas Hold'em round controller of `texas_hold_em.rs`: seating,
  round-robin hole cards, burn-then-deal board cards, the street marker
  and the reset at the end of a hand (`HoldEm`). Its dealing is specified
  by functions on a table value (`Tables`). The table keeps ghost piles
  for the cards the source throws away (burned cards, cards drawn for a
  full hand), so it can prove that deck, hands, board and discards always
  hold one 52-card set;
- the older round driver of `poker_game.rs`: front-popping deck, hole
  cards and board cards with every failure propagated, one betting action
  at a time, the end of a street, and the Preflop-to-Final street sequence
  (`Simulation`);
- the action type of the older player API (`Actions`), and the
  interactive player of `src/players/human_player.rs` deciding on one
  supplied input line (`HumanPlayers`). The string functions it relies on
  (`trim`, `to_lowercase`, `replace(" ", "")`, `parse::<u32>`) are modelled
  in `Text`;
- the Go player (`GoPlayers`).

`src/cards/card.rs` and `src/game/variant.rs` repeat
`rust/src/poker/card.rs` and `rust/src/poker/variant.rs` line for line.
Each is modelled once, and the table cites both. The `Display` names
exist only in `src/game/variant.rs`.

Every imperative source file is a class whose methods update the fields
the source updates: `Decks.Deck`, `Players.Player`, `HoldEm.PokerGame`,
`Simulation.PokerGame`, `HumanPlayers.HumanPlayer` and `GoPlayers.Player`.
The dealing and betting methods are each proved against a pure function
of the old state:

- `DealHoleCards`, `DealCommunity`, `DealFront`, `FrontDeal`;
- `PlaceBetOn`, `ActOn`;
- `CallOn`, `AllInOn`, `RaiseOn`, `DecideOn`;
- `BetOn`.

The lemmas beside these functions state what the source promises.

Chips are unbounded integers: naturals in the Rust models, and `int` in
`GoPlayers`, where a negative amount is accepted as in the Go source. The
source's `u32` and Go's fixed-width `int` can overflow; widths and
overflow are left out. Where the code and the tests disagree, the code is
followed: `rust/tests/deck_tests.rs` expects `Deck::new` to hold 52 cards, but
`rust/src/poker/deck.rs:13-18` builds an empty deck, so
`Decks.Deck.constructor` ends with no cards.

## Model

| member | source | states |
|---|---|---|
| Cards.New | rust/src/poker/card.rs:30-37 | refused with `InvalidCardRank(rank)` exactly when the rank is outside [2, 14]; otherwise the card holds the given suit and rank, and the rank is valid |
| Cards.NewRoundTrip | rust/src/poker/card.rs:35-45 | every rank in 2..14 builds a card of every suit, and `suit()`/`rank()` (`Cards.SuitOf`, `Cards.RankOf`) give back the arguments |
| Cards.NewEquality | src/cards/card.rs:22-39 | two constructed cards are equal exactly when suit and rank agree |
| Variants.HoleCards | rust/src/poker/variant.rs:13-21 | between 1 and 5 hole cards; Texas Hold'em 2, Omaha 4 |
| Variants.CommunityCards | src/game/variant.rs:40-45 | 5 board cards exactly for the two hold'em games, 0 for the rest |
| Variants.Name | src/game/variant.rs:14-25 | every variant renders to a non-empty name |
| Variants.HoleCardsInjective | rust/src/poker/variant.rs:13-21 | the hole-card count tells the variants apart |
| Variants.NameInjective | src/game/variant.rs:16-22 | no two variants render the same name |
| Decks.CanonicalCard | rust/src/poker/deck.rs:27-31 | the k-th card `initialize` pushes has a valid rank |
| Decks.CanonicalDeck | rust/src/poker/deck.rs:22-34 | the initialised deck holds 52 cards |
| Decks.CanonicalDeckIsFullSet | rust/src/poker/deck.rs:27-31 | the 52 cards are pairwise distinct, each valid card occurs in the deck, and it occurs exactly once |
| Decks.DrawOrder | rust/src/poker/deck.rs:50-52 | m draws return m cards |
| Decks.DrawOrderStep | rust/src/poker/deck.rs:50-52 | each further draw yields the next card from the back |
| Decks.DrawOrderSplits | rust/src/poker/deck.rs:50-52 | the cards drawn plus the cards left are exactly the deck |
| Decks.Deck.constructor | rust/src/poker/deck.rs:13-18 | a new deck is empty |
| Decks.Deck.Remaining | rust/src/poker/deck.rs:54-56 | the number of cards, 0 exactly for an empty deck |
| Decks.Deck.Initialize | rust/src/poker/deck.rs:22-34 | whatever the deck held, it becomes the suit-major, rank-ascending 52-card deck |
| Decks.Deck.Shuffle | rust/src/poker/deck.rs:37-42 | same length and same multiset of cards |
| Decks.Deck.InitializeAndShuffle | rust/src/poker/deck.rs:44-48 | 52 cards forming exactly the full set |
| Decks.Deck.Draw | rust/src/poker/deck.rs:50-56 | an empty deck fails with `NotEnoughCards` and is unchanged; otherwise the last card is returned and removed, and `remaining` drops by one |
| Decks.Deck.Clear | rust/src/poker/deck.rs:58-60 | no cards, `remaining() == 0` |
| Positions.AllPositions | rust/src/poker/position.rs:16-27 | eight roles without repeats, the button first |
| Positions.PositionsForPlayers | rust/src/poker/position.rs:30-41 | at most eight seats, none exactly outside 2..8 players; a non-empty layout starts at the button and has a big blind |
| Positions.NextIn | rust/src/poker/position.rs:45-48 | the successor is always a role of the list |
| Positions.NextPosition | rust/src/poker/position.rs:44-49 | the next position is always a seat of the table's layout |
| Positions.IsBlind | rust/src/poker/position.rs:52-54 | a blind is never the button and sits within two seats of it, and it has a seat in every layout of three or more players |
| Positions.DistanceFromBtn | rust/src/poker/position.rs:57-68 | a distance below 8, and 0 exactly for the button |
| Positions.IndexOf | rust/src/poker/position.rs:46 | the first index holding the role, or none exactly when the role is absent |
| Positions.LayoutSize | rust/src/poker/position.rs:30-41 | 2..8 players get n seats starting at the button; any other count gets no seats |
| Positions.HeadsUpLayout | rust/src/poker/position.rs:32 | heads-up is [Button, BigBlind], with no small blind |
| Positions.LayoutOrdered | rust/src/poker/position.rs:32-38 | every layout is strictly increasing in distance from the button, so no role repeats |
| Positions.NextInAdvances | rust/src/poker/position.rs:44-49 | in a list without repeats, the successor of entry i is entry i+1, or the first entry after the last |
| Positions.NextPositionAdvances | rust/src/poker/position.rs:44-49 | `next_position` moves to the next seat of the layout |
| Positions.LastSeatWrapsToButton | rust/src/poker/position.rs:44-49 | from the last seat it wraps to the button |
| Positions.NextInAbsent | rust/src/poker/position.rs:46-48 | a role missing from a list counts as index 0, so its successor is the second entry |
| Positions.NextPositionOfAbsent | rust/src/poker/position.rs:46-48 | a role missing from the layout moves to the layout's second seat |
| Positions.RotateWithin | rust/src/poker/position.rs:44-49 | k rotations from seat i reach seat i+k while that stays in the list |
| Positions.RotateWraps | rust/src/poker/position.rs:44-49 | rotating past the last seat continues from the first |
| Positions.RotationCycles | rust/src/poker/position.rs:44-49 | k calls of `next_position` walk k seats, and n calls bring every role back |
| Positions.BlindsNextToButton | rust/src/poker/position.rs:52-68 | `is_blind` holds exactly for the roles one and two seats from the button |
| Positions.DistanceIsBijection | rust/src/poker/position.rs:16-27 | `all_positions` lists all 8 roles from the button, numbered 0..7 by `distance_from_btn` without repeats |
| Players.PlaceBetOn | rust/src/poker/player.rs:116-123 | refused with `InsufficientChips` exactly when the amount exceeds the stack; otherwise the amount moves into the wager and stack plus wager is kept |
| Players.ResetBetOn | rust/src/poker/player.rs:130-132 | the wager is 0 and the stack is kept |
| Players.StreetsCostSumOfBets | rust/src/poker/player.rs:116-132 | across street resets a run of bets succeeds exactly when their sum fits the stack, which then falls by exactly that sum and leaves no wager |
| Players.Player.constructor | rust/src/poker/player.rs:45-57 | the buy-in as stack, empty hand, no wager, no position, the given type and variant |
| Players.Player.SetPosition | rust/src/poker/player.rs:59-61 | the position becomes `Some(p)` |
| Players.Player.AdjustPosition | rust/src/poker/player.rs:158-160 | the position becomes `Some(p)` |
| Players.Player.ReceiveCard | rust/src/poker/player.rs:63-70 | a full hand refuses with `TooManyCards` and is unchanged; otherwise the card is appended; the hand never exceeds the variant's hole cards |
| Players.Player.HasCompleteHand | rust/src/poker/player.rs:72-74 | a complete hand is within the variant's bound, and a valid hand that is not complete still has room for a card |
| Players.Player.ClearHand | rust/src/poker/player.rs:72-78 | the hand is empty and no longer complete |
| Players.Player.GetBotAction | rust/src/poker/player.rs:112-114 | the bot always folds |
| Players.Player.PlaceBet | rust/src/poker/player.rs:116-123 | the stake moves exactly as `PlaceBetOn` says; a refusal changes nothing; stack plus wager is kept |
| Players.Player.WinPot | rust/src/poker/player.rs:126-128 | only the stack grows, by the amount |
| Players.Player.ResetBetInRound | rust/src/poker/player.rs:130-132 | the wager is zeroed and the stack kept |
| Tables.CountOnIsSize | rust/src/poker/texas_hold_em.rs:172-182 | the table's card count is the size of its multiset of cards |
| Tables.PooledEmpty | rust/src/poker/texas_hold_em.rs:180-182 | empty hands hold no cards |
| Tables.SeatingAddsNoCards | rust/src/poker/texas_hold_em.rs:66-72 | appending empty-handed seats adds no card to the table |
| Tables.DealStep | rust/src/poker/texas_hold_em.rs:92-95 | one pop keeps the number of seats, the board and the burned cards, and takes one card off a non-empty deck |
| Tables.PassFrom | rust/src/poker/texas_hold_em.rs:89-96 | a pass keeps the number of seats, the board and the burned cards, and never grows the deck |
| Tables.DealHoleCards | rust/src/poker/texas_hold_em.rs:85-100 | dealing hole cards keeps the number of seats, the board and the burned cards, and never grows the deck |
| Tables.PassFromStep | rust/src/poker/texas_hold_em.rs:89-96 | a pass from seat i is the pop for seat i followed by the pass from i+1 |
| Tables.DealStepKeepsCards | rust/src/poker/texas_hold_em.rs:92-95 | one pop moves a card and loses none |
| Tables.PassFromKeepsCards | rust/src/poker/texas_hold_em.rs:89-96 | a pass moves cards and loses none |
| Tables.DealHoleCardsKeepsCards | rust/src/poker/texas_hold_em.rs:85-100 | dealing hole cards neither creates nor destroys a card |
| Tables.PassFromDeck | rust/src/poker/texas_hold_em.rs:89-96 | a pass pops one card per remaining seat while cards last, and leaves board and burned cards alone |
| Tables.DealHoleCardsDeck | rust/src/poker/texas_hold_em.rs:85-100 | two cards per seat leave the back of the deck, or the whole deck when it is short |
| Tables.PassFromFills | rust/src/poker/texas_hold_em.rs:89-96 | with cards and room enough, each remaining seat gets the next card from the back, in seat order |
| Tables.PassOverSingles | rust/src/poker/texas_hold_em.rs:89-96 | over one-card hands with a card per seat, a pass gives seat j the j-th card from the back and drops nothing |
| Tables.FirstPassFromEmpty | rust/src/poker/texas_hold_em.rs:87-96 | from empty hands the first pass gives seat j the j-th card from the back |
| Tables.DealHoleCardsFromEmpty | rust/src/poker/texas_hold_em.rs:85-100 | from empty hands and a deck of two cards per seat, seat i holds the i-th and (n+i)-th cards from the back, and no card is dropped |
| Tables.Burn | rust/src/poker/texas_hold_em.rs:104-105 | the back card of the deck is added to the burned cards; hands, board and dropped cards are untouched |
| Tables.BurnKeepsCards | rust/src/poker/texas_hold_em.rs:104-105 | the burned card stays on the table |
| Tables.ToBoard | rust/src/poker/texas_hold_em.rs:107-117 | k pops move k cards from the deck to the board; hands, burned and dropped cards are untouched |
| Tables.ToBoardShape | rust/src/poker/texas_hold_em.rs:107-117 | the k back cards go onto the board in pop order; hands and discards are untouched |
| Tables.ToBoardKeepsCards | rust/src/poker/texas_hold_em.rs:107-117 | moving cards onto the board creates and destroys none |
| Tables.DealCommunity | rust/src/poker/texas_hold_em.rs:103-120 | an empty deck changes nothing; otherwise n+1 cards (or the whole deck) leave it, one is burned and the rest join the board; hands and dropped cards are untouched |
| Tables.DealCommunityShape | rust/src/poker/texas_hold_em.rs:103-120 | the back card is burned, then n cards (or as many as remain) go onto the board in pop order |
| Tables.TwoSeatCounts | rust/src/poker/texas_hold_em.rs:85-138 | two seats and 52 cards: 48, 44, 42 and 40 cards in the deck; 3, 4 and 5 on the board; three burns |
| Tables.DealCommunityKeepsCards | rust/src/poker/texas_hold_em.rs:103-120 | dealing to the board creates and destroys no card |
| HoldEm.CardsHeld | rust/src/poker/texas_hold_em.rs:180-182 | the sum counts every seat's hand, and is 0 for no seats |
| HoldEm.CardsHeldIs | rust/src/poker/texas_hold_em.rs:180-182 | `num_cards_in_hands` counts the cards in the seats' hands |
| HoldEm.PokerGame.constructor | rust/src/poker/texas_hold_em.rs:43-56 | no players, an empty fresh deck, pot 0, bet 0, no round |
| HoldEm.PokerGame.InitializePlayers | rust/src/poker/texas_hold_em.rs:58-73 | fails with `InvalidPlayerCount` exactly when the names are fewer than 2 or more than 8, adding nobody; otherwise one fresh Human Hold'em seat with 1000 chips per name, appended in order |
| HoldEm.PokerGame.AddSeat | rust/src/poker/texas_hold_em.rs:68-71 | a fresh seat with the starting stack joins the end of the table |
| HoldEm.PokerGame.NewDeck | rust/src/poker/texas_hold_em.rs:75-79 | a shuffled full 52-card set; with no card out, the table holds exactly one set |
| HoldEm.PokerGame.ClearDeck | rust/src/poker/texas_hold_em.rs:81-83 | the deck is empty |
| HoldEm.PokerGame.DealPlayerCards | rust/src/poker/texas_hold_em.rs:85-100 | always `Ok`; the cards move exactly as `DealHoleCards` says; stakes and positions untouched |
| HoldEm.PokerGame.DealRound | rust/src/poker/texas_hold_em.rs:89-96 | one pass round the table, as `Pass` says |
| HoldEm.PokerGame.DealOne | rust/src/poker/texas_hold_em.rs:92-95 | one pop for seat k, as `DealStep` says |
| HoldEm.PokerGame.DealCommunityCards | rust/src/poker/texas_hold_em.rs:103-120 | cards move as `DealCommunity` says; fails with `DeckError(NotEnoughCards)` exactly when the deck holds fewer than n+1 cards |
| HoldEm.PokerGame.Flop | rust/src/poker/texas_hold_em.rs:122-126 | burn and three cards; the round becomes Flop on success |
| HoldEm.PokerGame.Turn | rust/src/poker/texas_hold_em.rs:128-132 | burn and one card; the round becomes Turn on success |
| HoldEm.PokerGame.River | rust/src/poker/texas_hold_em.rs:134-138 | burn and one card; the round becomes River on success |
| HoldEm.PokerGame.EndGame | rust/src/poker/texas_hold_em.rs:140-159 | empty board and hands, pot 0, bet 0, no round, a fresh full deck, stakes and positions untouched |
| HoldEm.PokerGame.ResetCards | rust/src/poker/texas_hold_em.rs:151-157 | every hand emptied and a fresh 52-card set in the deck |
| HoldEm.PokerGame.ClearHands | rust/src/poker/texas_hold_em.rs:151-154 | every hand is empty |
| HoldEm.PokerGame.ClearSeat | rust/src/poker/texas_hold_em.rs:152-153 | seat i's hand is empty; the other hands are unchanged |
| HoldEm.PokerGame.CheckNoPlayers | rust/src/poker/texas_hold_em.rs:165-170 | `NoPlayers` exactly for an empty table |
| HoldEm.PokerGame.NumPlayers | rust/src/poker/texas_hold_em.rs:161-163 | the number of seats, 0 exactly when `check_no_players` fails |
| HoldEm.PokerGame.NumCardsInDeck | rust/src/poker/texas_hold_em.rs:172-174 | the number of cards in the deck |
| HoldEm.PokerGame.NumCommunityCards | rust/src/poker/texas_hold_em.rs:176-178 | the number of board cards |
| HoldEm.PokerGame.NumCardsInHands | rust/src/poker/texas_hold_em.rs:180-182 | at least the size of every seat's hand, and 0 for no seats |
| HoldEm.FreshTable | rust/src/poker/texas_hold_em.rs:140-159 | with no card out, the one set is all in the deck: 52 cards |
| HoldEm.CardsAddUpTo52 | rust/src/poker/texas_hold_em.rs:172-182 | deck, hands, board and discarded cards count 52 |
| Simulation.StreetIndex | rust/src/poker/poker_game.rs:148-179 | streets are numbered 0..4 from Preflop to Final |
| Simulation.NextStreet | rust/src/poker/poker_game.rs:148-179 | each street is followed by the next one in order |
| Simulation.StreetCards | rust/src/poker/poker_game.rs:148-179 | at most 3 board cards per street, none exactly on Preflop and Final |
| Simulation.DeckUsedBefore | rust/src/poker/poker_game.rs:148-179 | at most 8 deck cards are used for the board and its burns |
| Simulation.StreetUsesDeck | rust/src/poker/poker_game.rs:148-179 | each dealing street uses its cards plus one burn; only Preflop deals none |
| Simulation.StreetsDealInOrder | rust/src/poker/poker_game.rs:148-179 | dealing a street leaves the deck and board as they stand before the next street |
| Simulation.BurnFront | rust/src/poker/poker_game.rs:108 | the front card is burned; an empty deck stays empty |
| Simulation.FrontDeal | rust/src/poker/poker_game.rs:106-123 | after the burn, n front cards (or all that remain) go to the board, the rest stay in order, and nothing else is lost |
| Simulation.Retain | rust/src/poker/poker_game.rs:215 | the seats kept are exactly those with another name |
| Simulation.RetainSplits | rust/src/poker/poker_game.rs:215 | the seats kept stay in their order: retaining from a table split in two is retaining from each part, the first part's seats first |
| Simulation.RetainNoneRemoved | rust/src/poker/poker_game.rs:215 | when no seat has the folding player's name, the table is unchanged |
| Simulation.CallAmount | rust/src/poker/poker_game.rs:219 | what a call pays covers the current bet, and is 0 unless it brings the wager exactly to it |
| Simulation.ActOn | rust/src/poker/poker_game.rs:204-239 | a seat with no chips, or a fold, changes nothing; errors exactly on an unpayable call, a raise not above the current bet (`InvalidAction`) or an unpayable raise; chips paid go to the street's pot; stack plus wager is kept; a call matches the current bet; a raise sets it |
| Simulation.GiveFront | rust/src/poker/poker_game.rs:92-98 | one pop keeps the number of seats |
| Simulation.PassFrontFrom | rust/src/poker/poker_game.rs:89-99 | a pass keeps the number of seats |
| Simulation.DealFront | rust/src/poker/poker_game.rs:85-103 | dealing keeps the number of seats |
| Simulation.PassFrontStep | rust/src/poker/poker_game.rs:89-99 | a pass stops at the first failure or continues with the next seat |
| Simulation.PassFrontOutcome | rust/src/poker/poker_game.rs:89-99 | a pass succeeds exactly when there is a card and room for each remaining seat; it fails with `NotEnoughCards` or `PlayerHandFull` accordingly |
| Simulation.PassFrontFills | rust/src/poker/poker_game.rs:89-99 | a successful pass gives each remaining seat the next front card and leaves earlier seats alone |
| Simulation.DealFrontOutcome | rust/src/poker/poker_game.rs:85-103 | dealing succeeds exactly when the deck holds two cards per seat and every hand has room for two; otherwise the failure is the one the source reports |
| Simulation.DealFrontFills | rust/src/poker/poker_game.rs:85-103 | with enough cards and room, seat k gets the k-th and (n+k)-th front cards, and 2n cards leave the front |
| Simulation.DealFrontFromEmpty | rust/src/poker/poker_game.rs:85-103 | for empty two-card hands, dealing succeeds exactly when the deck holds 2n cards, otherwise fails with `NotEnoughCards` |
| Simulation.PokerGame.constructor | rust/src/poker/poker_game.rs:65-81 | no players, the given deck, pot 0, an empty board, Preflop |
| Simulation.PokerGame.Bet | rust/src/poker/poker_game.rs:257-264 | the stake moves as `place_bet` would; a refusal is `InsufficientChips` and changes nothing |
| Simulation.PokerGame.Act | rust/src/poker/poker_game.rs:202-239 | the stake and the street's bets move exactly as `ActOn` says; a fold by a seat with chips removes it from the active list |
| Simulation.PokerGame.EndStreet | rust/src/poker/poker_game.rs:247-252 | the pot grows by the street's chips and every wager is reset; stacks untouched |
| Simulation.PokerGame.DealPass | rust/src/poker/poker_game.rs:89-99 | one pass, as `PassFrontFrom` says |
| Simulation.PokerGame.GiveOne | rust/src/poker/poker_game.rs:92-98 | one pop for seat k, as `GiveFront` says |
| Simulation.PokerGame.DealPlayerCards | rust/src/poker/poker_game.rs:85-103 | the deck, hands and result are exactly `DealFront` of the old state |
| Simulation.PokerGame.DealCommunityCards | rust/src/poker/poker_game.rs:106-123 | the board and deck move as `FrontDeal` says; fails with `NotEnoughCards` exactly when fewer than n cards remain after the burn |
| Simulation.PokerGame.PlayStreets | rust/src/poker/poker_game.rs:148-179 | reaches Final exactly when the deck holds at least 8 cards, using 8 front cards and building the 5-card board between the burns |
| Simulation.PokerGame.SeatPlayers | rust/src/poker/poker_game.rs:127-133 | one fresh seat per name, in order, with 1000 chips, an empty hand and no wager |
| Simulation.PokerGame.SimulateRound | rust/src/poker/poker_game.rs:125-184 | succeeds exactly when the deck holds two cards per name plus 8; seat i holds the i-th and (n+i)-th front cards and the board is the five cards between the burns; the pot is 0 |
| Simulation.PokerGame.DealAndPlay | rust/src/poker/poker_game.rs:145-179 | the hole cards and then the streets, with the same outcome and cards |
| Actions.Amount | src/players/action.rs:12-18 | the amount a raise or all-in names, 0 for the other actions |
| Actions.AmountDeterminesAction | src/players/action.rs:2-18 | two raises, or two all-ins, are equal exactly when their amounts are |
| Text.TrimStart | src/players/human_player.rs:89 | the text starts at the first character that is not white space |
| Text.TrimEnd | src/players/human_player.rs:89 | the text ends after the last character that is not white space |
| Text.Trim | src/players/human_player.rs:89 | the result is the slice outside which every character is white space, and it neither starts nor ends with white space |
| Text.TrimUnpadded | src/players/human_player.rs:89 | a string with no white space at its ends is its own trim |
| Text.TrimIdempotent | src/players/human_player.rs:89 | trimming twice is trimming once |
| Text.Lower | src/players/human_player.rs:89 | the string is lowercased character by character |
| Text.LowerKeepsSpaces | src/players/human_player.rs:89 | lowercasing neither adds nor removes white space |
| Text.LowerIdempotent | src/players/human_player.rs:89 | lowercasing twice is lowercasing once |
| Text.RemoveSpaces | src/players/human_player.rs:137 | no U+0020 is left, and every other character keeps its count |
| Text.RemoveSpacesNone | src/players/human_player.rs:137 | a string without U+0020 comes back unchanged |
| Text.ParseU32 | src/players/human_player.rs:146 | accepts exactly an optional `+` and then decimal digits whose value fits in 32 bits |
| Text.ShowNat | src/players/human_player.rs:146 | a numeral of digits with no leading zero |
| Text.ShowNatValue | src/players/human_player.rs:146 | a numeral reads back as its number |
| Text.ParseShowRoundTrip | src/players/human_player.rs:146 | every `u32` survives printing and parsing, with or without a `+` |
| Text.ParseRefuses | src/players/human_player.rs:146 | the empty string, a lone `+` and a leading `-` never parse |
| HumanPlayers.AllInOn | src/players/human_player.rs:53-57 | the whole stack moves into the wager; stack plus wager is kept; the action names the new wager |
| HumanPlayers.CallOn | src/players/human_player.rs:40-47 | a bet above the stack goes all in; otherwise the full current bet moves into the wager and the action is Call; stack plus wager is kept |
| HumanPlayers.RaiseOn | src/players/human_player.rs:124-162 | "allin", or an amount above the stack, goes all in; an amount below twice the current bet fails with `RaiseMustBeAtLeast(current_bet)` and changes nothing; otherwise the amount moves and the action is `Raise(amount)`; any other line asks again with nothing changed |
| HumanPlayers.DecideOn | src/players/human_player.rs:74-122 | "check" is accepted exactly when the current bet and the wager are 0, and otherwise asks again with `MustCallOrFold`; "fold" is always accepted; neither changes the stake; "call" calls; "raise" runs `RaiseOn` on the normalised raise line, and is done exactly when that accepts, with its stake and action; a refused raise asks again with `RaiseRefused` and an unreadable amount with `InvalidAmount`, both changing nothing; any other word asks again; stack plus wager is kept |
| HumanPlayers.DecideRaiseReadsLine | src/players/human_player.rs:105-113 | "Raise" and then " 3 0 " on the terminal raises 30 from 100 chips against a bet of 10; a line with no number asks again for the amount |
| HumanPlayers.ActionWord | src/players/human_player.rs:89 | the action input is `to_lowercase` then `trim`: no A-Z is left, no white space at either end, and it is no longer than the input |
| HumanPlayers.RaiseWord | src/players/human_player.rs:137 | the raise line is `replace(" ", "")`, `to_lowercase`, then `trim`: no U+0020 and no A-Z is left, no white space at either end, and it is no longer than the line |
| HumanPlayers.ActionWordIdempotent | src/players/human_player.rs:89 | normalising a word twice is normalising once |
| HumanPlayers.DecideNormalised | src/players/human_player.rs:89 | case and surrounding white space of the input do not change the decision |
| HumanPlayers.RaiseSequence | src/players/human_player.rs:201-239 | from 100 chips: raise 30, raise 60, then 20 with 10 chips left goes all in for 100; a raise of 20 against 15 is refused |
| HumanPlayers.HumanPlayer.constructor | src/players/human_player.rs:70-72 | the given stack, an empty hand, no wager |
| HumanPlayers.HumanPlayer.ReceiveCard | src/players/human_player.rs:31-34 | the card is appended, without a limit |
| HumanPlayers.HumanPlayer.Call | src/players/human_player.rs:40-47 | the stake and action are exactly `CallOn` of the old stake |
| HumanPlayers.HumanPlayer.AllInNow | src/players/human_player.rs:53-57 | the stake and action are exactly `AllInOn` of the old stake |
| HumanPlayers.HumanPlayer.Win | src/players/human_player.rs:58-60 | the stack grows by the pot |
| HumanPlayers.HumanPlayer.GetRaiseWithInput | src/players/human_player.rs:124-162 | the stake and reply are exactly `RaiseOn` of the old stake and the input |
| HumanPlayers.HumanPlayer.GetActionWithInput | src/players/human_player.rs:74-122 | the stake and reply are exactly `DecideOn` of the old stake, the input and the raise line |
| GoPlayers.BetOn | go/player.go:31-37 | accepted exactly when the amount is at most the stack; a refusal leaves the stack; an accepted bet takes exactly the amount; non-negative amounts keep a non-negative stack within bounds; a negative amount is accepted and grows the stack |
| GoPlayers.BetsKeepStackNonNegative | go/player.go:31-37 | non-negative bets keep a non-negative stack non-negative and never grow it, and the stack drops by exactly what the accepted bets took |
| GoPlayers.Player.constructor | go/player.go:18-25 | the starting stack, an empty hand, not folded |
| GoPlayers.Player.ReceiveCard | go/player.go:27-29 | the card is appended, without a limit |
| GoPlayers.Player.Bet | go/player.go:31-37 | result and stack are exactly `BetOn` of the old stack |
| GoPlayers.Player.Fold | go/player.go:39-41 | the player is folded; only that flag may change, so folding again changes nothing |

## Left out

- Terminal I/O: the game loop of `src/main.rs` is not part of this model. Neither are `Player::get_human_action` (rust/src/poker/player.rs:87-110), the Go `ShowHand`, and every `println!`. Error message strings and `Debug` output are left out too.
- Randomness: `Deck::shuffle` is any permutation. Which one the random source picks, and its distribution, are not modelled.
- Integer widths: chips, bets and counts are unbounded. The `u32` overflow of `win_pot`, `win`, `pot += pot_in_round` and `2 * current_bet`, and the wrap-around of Go's `int`, are not modelled.
- Hand ranking and `determine_winner`: these do not exist in the source, so `Simulation.PokerGame.SimulateRound` stops after the river.
- `simulate_betting`'s `while betting_round` loop never ends. The model has one action (`Simulation.PokerGame.Act`) and the end of a street (`Simulation.PokerGame.EndStreet`), not the loop. `get_player_action`, which the loop calls, is not defined in the source.
- `Simulation.PokerGame.SimulateRound`: the source calls `shuffle_deck`, which is not defined, so the deck is used in the order the constructor received it. Its seats are built with the four-argument `Player::new` as Human Texas Hold'em seats, because the source's two-argument call has no matching constructor.
- `Simulation.PokerGame.constructor`: `initialize_deck` and `shuffle_deck` are not defined in the source, so the deck is a parameter.
- `Simulation.GameError` adds `NotEnoughCards`, which the dealing code returns but the source enum does not declare.
- `Decks.Deck.Initialize` returns no result: `Card::new` cannot fail on ranks 2..14, so its error path is unreachable. For the same reason `HoldEm.PokerGame.constructor`, `HoldEm.PokerGame.NewDeck` and `HoldEm.PokerGame.EndGame` drop the `Result` that the source always returns as `Ok` (rust/src/poker/texas_hold_em.rs:43-79, 140-159).
- `HoldEm.PokerGame.burned`, `lost` and `hands` are ghost fields. The source simply drops burned cards and the cards drawn for a full hand.
- `HumanPlayers.HumanPlayer.ReceiveCard` returns nothing, since the source always answers `Ok`. `get_name` and the `PlayerAction` wrapper are left out; the decision returns the bare `Action`.
- `HumanPlayers.DecideOn`: `AskAgain` stands for the source's `continue`. Given a fixed supplied input, that loop would repeat forever. The stdin read of the action and of the raise amount, and a failed `read_line`, are not modelled; the raise line is a parameter.
- `Text.Lower` lowercases only A-Z and the Kelvin sign. These are the only characters whose lowercase is ASCII, so the comparisons with "check", "fold", "call", "raise" and "allin" are unaffected. Other scripts are not lowercased.
- Getters that only read a field (`get_hand`, `get_position`, `get_round`, `get_chips` and the like) are left out; the fields are public in the model. `Card::suit` and `Card::rank` are the exception: `Cards.SuitOf` and `Cards.RankOf` model them, and `Cards.NewRoundTrip` states what they return.
- `Positions.NextPosition` requires 2 to 8 players. For any other count, `positions_for_players` is empty and `next_position` panics on `% 0` (rust/src/poker/position.rs:47); the panic is not modelled.
