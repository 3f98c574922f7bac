/** Seat roles and their rotation: rust/src/poker/position.rs. */
module Positions {
  import opened Wrappers

  datatype Position = SmallBlind | BigBlind | UTG | UTG1 | MP | HJ | CO | Button

  /** `all_positions`. */
  function AllPositions(): (ps: seq<Position>)
    ensures |ps| == 8 && ps[0] == Button
    ensures forall i, j :: 0 <= i < j < |ps| ==> ps[i] != ps[j]
  {
    [Button, SmallBlind, BigBlind, UTG, UTG1, MP, HJ, CO]
  }

  /** `positions_for_players`: the fixed layout for 2 to 8 players, empty
      for any other count. Heads-up has no small blind seat. */
  function PositionsForPlayers(numPlayers: nat): (ps: seq<Position>)
    ensures |ps| <= 8 && (ps == [] <==> !(2 <= numPlayers <= 8))
    ensures ps != [] ==> ps[0] == Button && BigBlind in ps
  {
    match numPlayers
    case 2 => [Button, BigBlind]
    case 3 => [Button, SmallBlind, BigBlind]
    case 4 => [Button, SmallBlind, BigBlind, UTG]
    case 5 => [Button, SmallBlind, BigBlind, UTG, CO]
    case 6 => [Button, SmallBlind, BigBlind, UTG, HJ, CO]
    case 7 => [Button, SmallBlind, BigBlind, UTG, MP, HJ, CO]
    case 8 => [Button, SmallBlind, BigBlind, UTG, UTG1, MP, HJ, CO]
    case _ => []
  }

  /** `Iterator::position`: the index of the first occurrence, if any. */
  function IndexOf(ps: seq<Position>, p: Position): (r: Option<nat>)
    ensures r.Some? ==> r.value < |ps| && ps[r.value] == p
    ensures r.Some? ==> forall k :: 0 <= k < r.value ==> ps[k] != p
    ensures r.None? <==> p !in ps
  {
    if ps == [] then None
    else if ps[0] == p then Some(0)
    else match IndexOf(ps[1..], p)
      case None => None
      case Some(i) => Some(i + 1)
  }

  /** The entry after `p` in `positions`, wrapping to the front; a position
      missing from `positions` counts as index 0. */
  function NextIn(positions: seq<Position>, p: Position): (next: Position)
    requires |positions| > 0
    ensures next in positions
  {
    var currentIndex := match IndexOf(positions, p) case Some(i) => i case None => 0;
    positions[(currentIndex + 1) % |positions|]
  }

  /** `next_position`. With an empty layout the source divides by zero,
      hence the bound on the player count. */
  function NextPosition(p: Position, numPlayers: nat): (next: Position)
    requires 2 <= numPlayers <= 8
    ensures next in PositionsForPlayers(numPlayers)
  {
    NextIn(PositionsForPlayers(numPlayers), p)
  }

  /** `is_blind`. */
  predicate IsBlind(p: Position): (b: bool)
    ensures b ==> p != Button && DistanceFromBtn(p) <= 2
    ensures b ==> forall n :: 3 <= n <= 8 ==> p in PositionsForPlayers(n)
  {
    p == SmallBlind || p == BigBlind
  }

  /** `distance_from_btn`. */
  function DistanceFromBtn(p: Position): (d: nat)
    ensures d < 8
    ensures d == 0 <==> p == Button
  {
    match p
    case Button => 0
    case SmallBlind => 1
    case BigBlind => 2
    case UTG => 3
    case UTG1 => 4
    case MP => 5
    case HJ => 6
    case CO => 7
  }

  /** A layout has one seat per player and starts at the button; outside
      2..8 it is empty. */
  lemma LayoutSize(n: nat)
    ensures 2 <= n <= 8 ==> |PositionsForPlayers(n)| == n && PositionsForPlayers(n)[0] == Button
    ensures !(2 <= n <= 8) ==> PositionsForPlayers(n) == []
  {
  }

  /** Heads-up the button faces the big blind and there is no small blind. */
  lemma HeadsUpLayout()
    ensures PositionsForPlayers(2) == [Button, BigBlind]
    ensures SmallBlind !in PositionsForPlayers(2)
  {
  }

  /** Every layout lists its seats in strictly increasing distance from the
      button, so no role appears twice. */
  lemma LayoutOrdered(n: nat)
    ensures forall i, j :: 0 <= i < j < |PositionsForPlayers(n)| ==>
      DistanceFromBtn(PositionsForPlayers(n)[i]) < DistanceFromBtn(PositionsForPlayers(n)[j])
    ensures Distinct(PositionsForPlayers(n))
  {
  }

  /** No role appears twice. */
  predicate Distinct(ps: seq<Position>) {
    forall a, b :: 0 <= a < b < |ps| ==> ps[a] != ps[b]
  }

  /** In a list without repeats, the successor of the i-th entry is the
      next entry, cyclically. */
  lemma NextInAdvances(ps: seq<Position>, i: nat)
    requires i < |ps|
    requires Distinct(ps)
    ensures i + 1 < |ps| ==> NextIn(ps, ps[i]) == ps[i + 1]
    ensures i + 1 == |ps| ==> NextIn(ps, ps[i]) == ps[0]
  {
    IndexOfDistinct(ps, i);
    WrapIndex(i, |ps|);
  }

  /** Without repeats, the first occurrence of the i-th entry is at i. */
  lemma IndexOfDistinct(ps: seq<Position>, i: nat)
    requires i < |ps|
    requires Distinct(ps)
    ensures IndexOf(ps, ps[i]) == Some(i)
  {
  }

  lemma WrapIndex(x: nat, n: nat)
    requires x < n
    ensures (x + 1) % n == if x + 1 < n then x + 1 else 0
  {
  }

  /** Rotation steps to the next seat of the layout. */
  lemma NextPositionAdvances(n: nat, i: nat)
    requires 2 <= n <= 8 && i + 1 < n
    ensures NextPosition(PositionsForPlayers(n)[i], n) == PositionsForPlayers(n)[i + 1]
  {
    var ps := PositionsForPlayers(n);
    LayoutSize(n);
    LayoutOrdered(n);
    NextInAdvances(ps, i);
  }

  /** From the last seat, rotation wraps to the button. */
  lemma LastSeatWrapsToButton(n: nat)
    requires 2 <= n <= 8
    ensures NextPosition(PositionsForPlayers(n)[n - 1], n) == Button
  {
    LayoutSize(n);
    LayoutOrdered(n);
    NextInAdvances(PositionsForPlayers(n), n - 1);
  }

  /** In any list of two or more roles, a role not in it is treated as the
      first entry. */
  lemma NextInAbsent(ps: seq<Position>, p: Position)
    requires |ps| >= 2 && p !in ps
    ensures NextIn(ps, p) == ps[1]
  {
  }

  /** A role that the layout does not have is treated as the button. */
  lemma NextPositionOfAbsent(p: Position, n: nat)
    requires 2 <= n <= 8 && p !in PositionsForPlayers(n)
    ensures NextPosition(p, n) == PositionsForPlayers(n)[1]
  {
    LayoutSize(n);
    NextInAbsent(PositionsForPlayers(n), p);
  }

  /** `k` successive rotations within the list `ps`. */
  function RotateIn(ps: seq<Position>, p: Position, k: nat): Position
    requires |ps| > 0
    decreases k
  {
    if k == 0 then p else RotateIn(ps, NextIn(ps, p), k - 1)
  }

  /** `k` successive calls of `next_position` for `n` players. */
  function Rotate(p: Position, n: nat, k: nat): Position
    requires 2 <= n <= 8
  {
    RotateIn(PositionsForPlayers(n), p, k)
  }

  /** In a list without repeats, rotating `k` seats from seat `i` reaches
      seat `i + k` while that stays inside the list. */
  lemma {:induction false} RotateWithin(ps: seq<Position>, i: nat, k: nat)
    requires i + k < |ps|
    requires Distinct(ps)
    ensures RotateIn(ps, ps[i], k) == ps[i + k]
    decreases k
  {
    if k > 0 {
      NextInAdvances(ps, i);
      RotateWithin(ps, i + 1, k - 1);
    }
  }

  /** In a list without repeats, rotating past the last seat continues from
      the first: `|ps| - i + j` steps from seat `i` reach seat `j`. */
  lemma {:induction false} RotateWraps(ps: seq<Position>, i: nat, j: nat)
    requires j < |ps| && i < |ps|
    requires Distinct(ps)
    ensures RotateIn(ps, ps[i], |ps| - i + j) == ps[j]
    decreases |ps| - i
  {
    var m := |ps| - i + j;
    NextInAdvances(ps, i);
    assert RotateIn(ps, ps[i], m) == RotateIn(ps, NextIn(ps, ps[i]), m - 1);
    if i == |ps| - 1 {
      RotateWithin(ps, 0, j);
    } else {
      RotateWraps(ps, i + 1, j);
    }
  }

  /** Rotation walks the table layout seat by seat: from seat `i`, `k` calls
      of `next_position` reach seat `i + k` while that stays in the layout,
      and `n` calls bring every role back to itself. */
  lemma RotationCycles(n: nat, i: nat, k: nat)
    requires 2 <= n <= 8 && i < n
    ensures i + k < n ==> Rotate(PositionsForPlayers(n)[i], n, k) == PositionsForPlayers(n)[i + k]
    ensures Rotate(PositionsForPlayers(n)[i], n, n) == PositionsForPlayers(n)[i]
  {
    var ps := PositionsForPlayers(n);
    LayoutSize(n);
    LayoutOrdered(n);
    if i + k < n {
      RotateWithin(ps, i, k);
    }
    RotateWraps(ps, i, i);
  }

  /** `is_blind` holds exactly for the two blinds, which sit one and two
      seats from the button. */
  lemma BlindsNextToButton(p: Position)
    ensures IsBlind(p) <==> DistanceFromBtn(p) == 1 || DistanceFromBtn(p) == 2
  {
  }

  /** `distance_from_btn` numbers the eight roles 0..7 without repeats, in
      the order `all_positions` lists them, with the button at 0. */
  lemma DistanceIsBijection()
    ensures |AllPositions()| == 8 && AllPositions()[0] == Button
    ensures forall i :: 0 <= i < 8 ==> DistanceFromBtn(AllPositions()[i]) == i
    ensures forall p: Position :: p in AllPositions()
    ensures forall p, q :: DistanceFromBtn(p) == DistanceFromBtn(q) ==> p == q
  {
    forall p: Position ensures p in AllPositions() {
      assert AllPositions()[DistanceFromBtn(p)] == p;
    }
  }
}
