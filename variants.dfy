/** Poker variants: rust/src/poker/variant.rs and src/game/variant.rs (the
    latter adds the `Display` names). */
module Variants {

  datatype PokerVariant = Kuhn | ThreeCard | FiveCard | TexasHoldem | OmahaHoldem

  /** Number of hole cards dealt to each player. */
  function HoleCards(v: PokerVariant): (n: nat)
    ensures 1 <= n <= 5
    ensures v == TexasHoldem ==> n == 2
    ensures v == OmahaHoldem ==> n == 4
  {
    match v
    case Kuhn => 1
    case ThreeCard => 3
    case FiveCard => 5
    case TexasHoldem => 2
    case OmahaHoldem => 4
  }

  /** Number of community cards: only the hold'em games have a board. */
  function CommunityCards(v: PokerVariant): (n: nat)
    ensures n == 0 || n == 5
    ensures n == 5 <==> v == TexasHoldem || v == OmahaHoldem
  {
    match v
    case TexasHoldem | OmahaHoldem => 5
    case _ => 0
  }

  /** The `Display` rendering of a variant. */
  function Name(v: PokerVariant): (s: string)
    ensures |s| > 0
  {
    match v
    case Kuhn => "Kuhn"
    case ThreeCard => "Three Card"
    case FiveCard => "Five Card"
    case TexasHoldem => "Texas Holdem"
    case OmahaHoldem => "Omaha Holdem"
  }

  /** Each variant's hole-card count is distinct, so the count identifies
      the variant. */
  lemma HoleCardsInjective(v: PokerVariant, w: PokerVariant)
    ensures HoleCards(v) == HoleCards(w) <==> v == w
  {
  }

  /** Rendering is injective: no two variants print the same name. */
  lemma NameInjective(v: PokerVariant, w: PokerVariant)
    ensures Name(v) == Name(w) <==> v == w
  {
    if v != w {
      // the names already differ in their first or in their length
      assert Name(v)[0] != Name(w)[0] || |Name(v)| != |Name(w)|;
    }
  }
}
