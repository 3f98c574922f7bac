/** The actions of the older player API: src/players/action.rs. */
module Actions {

  /** A player's decision. Raise and AllIn carry the chips they name,
      which are never negative. */
  datatype Action = Check | Fold | Call | Raise(n: nat) | AllIn(n: nat)

  /** True for the actions that carry an amount. */
  predicate CarriesAmount(a: Action) {
    a.Raise? || a.AllIn?
  }

  /** `Action::amount`: the chips a raise or an all-in names, and nothing
      for the other actions. Defined for every action. */
  function Amount(a: Action): (r: nat)
    ensures CarriesAmount(a) ==> r == a.n
    ensures !CarriesAmount(a) ==> r == 0
  {
    match a
    case Raise(n) => n
    case AllIn(n) => n
    case _ => 0
  }

  /** Two actions with the same tag are equal exactly when their amounts
      agree: the amount is all an action carries beyond its tag. */
  lemma AmountDeterminesAction(a: Action, b: Action)
    requires (a.Raise? && b.Raise?) || (a.AllIn? && b.AllIn?)
    ensures a == b <==> Amount(a) == Amount(b)
  {
  }
}
