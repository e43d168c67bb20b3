/** One round of Risk combat: the casualty table and the battle resolver. */
module Battle {

  /** One possible result of a round: the losses of each side and its chance. */
  datatype Casualty = Casualty(attackerLoss: nat, defenderLoss: nat, chance: real)

  /** A state reached after one round, with the probability mass that reaches it. */
  datatype Successor = Successor(attackers: int, defenders: int, chance: real)

  function Min(a: int, b: int): int { if a <= b then a else b }

  /** The sum of the chances of a row of the table. */
  function RowChance(row: seq<Casualty>): real
  {
    if row == [] then 0.0 else row[0].chance + RowChance(row[1..])
  }

  /** The casualty table: the row for the given numbers of attacker and
      defender dice, listing the attacker's victory, the defender's victory
      and, where two pairs of dice are compared, the tie. */
  function Casualties(attackerDice: int, defenderDice: int): seq<Casualty>
    requires 1 <= attackerDice <= 3 && 1 <= defenderDice <= 2
  {
    if attackerDice == 1 && defenderDice == 1 then
      [Casualty(0, 1, 5.0 / 12.0), Casualty(1, 0, 7.0 / 12.0)]
    else if attackerDice == 1 then
      [Casualty(0, 1, 55.0 / 216.0), Casualty(1, 0, 161.0 / 216.0)]
    else if attackerDice == 2 && defenderDice == 1 then
      [Casualty(0, 1, 125.0 / 216.0), Casualty(1, 0, 91.0 / 216.0)]
    else if attackerDice == 2 then
      [Casualty(0, 2, 295.0 / 1296.0), Casualty(2, 0, 581.0 / 1296.0), Casualty(1, 1, 420.0 / 1296.0)]
    else if defenderDice == 1 then
      [Casualty(0, 1, 855.0 / 1296.0), Casualty(1, 0, 441.0 / 1296.0)]
    else
      [Casualty(0, 2, 2890.0 / 7776.0), Casualty(2, 0, 2275.0 / 7776.0), Casualty(1, 1, 2611.0 / 7776.0)]
  }

  /** Each row of the table is a probability distribution with three entries
      when two defender dice face two or more attacker dice and two otherwise;
      in every entry exactly as many units die as there are pairs of dice
      compared, and no two entries cost the attacker the same loss. */
  lemma CasualtyRows(attackerDice: int, defenderDice: int)
    requires 1 <= attackerDice <= 3 && 1 <= defenderDice <= 2
    ensures RowChance(Casualties(attackerDice, defenderDice)) == 1.0
    ensures |Casualties(attackerDice, defenderDice)| == if attackerDice >= 2 && defenderDice == 2 then 3 else 2
    ensures forall c :: c in Casualties(attackerDice, defenderDice) ==>
      && c.attackerLoss + c.defenderLoss == Min(attackerDice, defenderDice)
      && c.chance > 0.0
    ensures forall i, j :: 0 <= i < j < |Casualties(attackerDice, defenderDice)| ==>
      Casualties(attackerDice, defenderDice)[i].attackerLoss != Casualties(attackerDice, defenderDice)[j].attackerLoss
  {
    var row := Casualties(attackerDice, defenderDice);
    assert row[2..] == [] || row[3..] == [];
    assert RowChance(row) == row[0].chance + row[1].chance + RowChance(row[2..]);
  }

  /** The row used for a battle between the given troop counts. */
  function BattleRow(attackers: int, defenders: int): seq<Casualty>
    requires attackers >= 1 && defenders >= 1
  {
    Casualties(Min(attackers, 3), Min(defenders, 2))
  }

  /** The successor state for one entry of the table. */
  function Apply(attackers: int, defenders: int, c: Casualty, weight: real): Successor
  {
    Successor(attackers - c.attackerLoss, defenders - c.defenderLoss, c.chance * weight)
  }

  /** Every state one round can lead to, one per entry of the row in table
      order, each weighted by the incoming mass. */
  function Successors(attackers: int, defenders: int, weight: real): seq<Successor>
    requires attackers >= 1 && defenders >= 1
  {
    ApplyAll(attackers, defenders, BattleRow(attackers, defenders), weight)
  }

  /** The successor states for each entry of a row, in the row's order. */
  function ApplyAll(attackers: int, defenders: int, row: seq<Casualty>, weight: real): seq<Successor>
  {
    if row == [] then [] else [Apply(attackers, defenders, row[0], weight)] + ApplyAll(attackers, defenders, row[1..], weight)
  }

  /** Entry i of the successor list comes from entry i of the row. */
  lemma {:induction false} ApplyAllIndex(attackers: int, defenders: int, row: seq<Casualty>, weight: real)
    ensures |ApplyAll(attackers, defenders, row, weight)| == |row|
    ensures forall i :: 0 <= i < |row| ==>
      ApplyAll(attackers, defenders, row, weight)[i] == Apply(attackers, defenders, row[i], weight)
  {
    if row != [] {
      ApplyAllIndex(attackers, defenders, row[1..], weight);
    }
  }

  /** The total mass carried by a list of successors. */
  function WeightSum(s: seq<Successor>): real
  {
    if s == [] then 0.0 else s[0].chance + WeightSum(s[1..])
  }

  lemma {:induction false} WeightSumOfRow(row: seq<Casualty>, attackers: int, defenders: int, weight: real)
    ensures WeightSum(ApplyAll(attackers, defenders, row, weight)) == RowChance(row) * weight
  {
    if row != [] {
      var s := ApplyAll(attackers, defenders, row, weight);
      assert s[1..] == ApplyAll(attackers, defenders, row[1..], weight);
      WeightSumOfRow(row[1..], attackers, defenders, weight);
    }
  }

  /** One round splits the incoming mass without losing or creating any. */
  lemma BattleConservesMass(attackers: int, defenders: int, weight: real)
    requires attackers >= 1 && defenders >= 1
    ensures WeightSum(Successors(attackers, defenders, weight)) == weight
  {
    CasualtyRows(Min(attackers, 3), Min(defenders, 2));
    WeightSumOfRow(BattleRow(attackers, defenders), attackers, defenders, weight);
  }

  /** From a state where both sides still have troops, every successor keeps
      non-negative troop counts, loses at most two units per side, loses
      exactly min(attacker dice, defender dice) units in all, and so strictly
      lowers attackers + defenders: the measure that orders the invasion sweep. */
  lemma SuccessorsDecrease(attackers: int, defenders: int, weight: real)
    requires attackers >= 1 && defenders >= 1
    ensures forall s :: s in Successors(attackers, defenders, weight) ==>
      && 0 <= s.attackers <= attackers && 0 <= s.defenders <= defenders
      && attackers - s.attackers <= 2 && defenders - s.defenders <= 2
      && (attackers - s.attackers) + (defenders - s.defenders) == Min(Min(attackers, 3), Min(defenders, 2))
      && s.attackers + s.defenders < attackers + defenders
      && (weight > 0.0 ==> s.chance > 0.0)
  {
    var row := BattleRow(attackers, defenders);
    CasualtyRows(Min(attackers, 3), Min(defenders, 2));
    ApplyAllIndex(attackers, defenders, row, weight);
    forall s | s in Successors(attackers, defenders, weight)
      ensures 0 <= s.attackers <= attackers && 0 <= s.defenders <= defenders
      ensures attackers - s.attackers <= 2 && defenders - s.defenders <= 2
      ensures (attackers - s.attackers) + (defenders - s.defenders) == Min(Min(attackers, 3), Min(defenders, 2))
      ensures weight > 0.0 ==> s.chance > 0.0
    {
      var i :| 0 <= i < |row| && s == Apply(attackers, defenders, row[i], weight);
      assert row[i] in row;
      EntryDecreases(attackers, defenders, row[i], weight);
    }
  }

  /** The successor for one entry of the row, given the entry's losses. */
  lemma EntryDecreases(attackers: int, defenders: int, c: Casualty, weight: real)
    requires attackers >= 1 && defenders >= 1
    requires c.attackerLoss + c.defenderLoss == Min(Min(attackers, 3), Min(defenders, 2)) && c.chance > 0.0
    ensures var s := Apply(attackers, defenders, c, weight);
      && 0 <= s.attackers <= attackers && 0 <= s.defenders <= defenders
      && attackers - s.attackers <= 2 && defenders - s.defenders <= 2
      && (weight > 0.0 ==> s.chance > 0.0)
  {
    if weight > 0.0 {
      assert Apply(attackers, defenders, c, weight).chance == c.chance * weight;
    }
  }

  /** A round of one die against one: the attacker wins with chance 5/12,
      leaving (1, 0), and loses with chance 7/12, leaving (0, 1). */
  lemma OneDieEach()
    ensures Successors(1, 1, 1.0) == [Successor(1, 0, 5.0 / 12.0), Successor(0, 1, 7.0 / 12.0)]
  {
    assert BattleRow(1, 1) == [Casualty(0, 1, 5.0 / 12.0), Casualty(1, 0, 7.0 / 12.0)];
    ApplyAllIndex(1, 1, BattleRow(1, 1), 1.0);
  }

  /** A round of two dice against two, from (2, 2) with mass 1: the
      defender loses both units, the attacker loses both, or one each. */
  lemma TwoDiceEach()
    ensures Successors(2, 2, 1.0) ==
      [Successor(2, 0, 295.0 / 1296.0), Successor(0, 2, 581.0 / 1296.0), Successor(1, 1, 420.0 / 1296.0)]
  {
    assert BattleRow(2, 2) == [Casualty(0, 2, 295.0 / 1296.0), Casualty(2, 0, 581.0 / 1296.0), Casualty(1, 1, 420.0 / 1296.0)];
    ApplyAllIndex(2, 2, BattleRow(2, 2), 1.0);
  }

  /** A round of three dice against two, from (3, 2) with mass 1: two
      defenders lost, two attackers lost, or one each. */
  lemma ThreeDiceAgainstTwo()
    ensures Successors(3, 2, 1.0) ==
      [Successor(3, 0, 2890.0 / 7776.0), Successor(1, 2, 2275.0 / 7776.0), Successor(2, 1, 2611.0 / 7776.0)]
  {
    assert BattleRow(3, 2) == [Casualty(0, 2, 2890.0 / 7776.0), Casualty(2, 0, 2275.0 / 7776.0), Casualty(1, 1, 2611.0 / 7776.0)];
    ApplyAllIndex(3, 2, BattleRow(3, 2), 1.0);
  }

  /** No two successors of one round have the same attacker count, so no two
      of them name the same state. */
  lemma SuccessorsDistinct(attackers: int, defenders: int, weight: real)
    requires attackers >= 1 && defenders >= 1
    ensures forall i, j :: 0 <= i < j < |Successors(attackers, defenders, weight)| ==>
      Successors(attackers, defenders, weight)[i].attackers != Successors(attackers, defenders, weight)[j].attackers
  {
    CasualtyRows(Min(attackers, 3), Min(defenders, 2));
    ApplyAllIndex(attackers, defenders, BattleRow(attackers, defenders), weight);
  }

  /** calculate_battle: builds the successor list entry by entry. */
  method CalculateBattle(attackers: int, defenders: int, chance: real := 1.0) returns (outcomes: seq<Successor>)
    requires attackers >= 1 && defenders >= 1
    ensures outcomes == Successors(attackers, defenders, chance)
    ensures |outcomes| == |BattleRow(attackers, defenders)|
    ensures WeightSum(outcomes) == chance
  {
    var a := Min(attackers, 3);
    var d := Min(defenders, 2);
    var possibilities := Casualties(a, d);
    outcomes := [];
    for i := 0 to |possibilities|
      invariant |outcomes| == i
      invariant forall k :: 0 <= k < i ==>
        outcomes[k] == Successor(attackers - possibilities[k].attackerLoss,
                                 defenders - possibilities[k].defenderLoss,
                                 possibilities[k].chance * chance)
    {
      var p := possibilities[i];
      outcomes := outcomes + [Successor(attackers - p.attackerLoss, defenders - p.defenderLoss, p.chance * chance)];
    }
    assert possibilities == BattleRow(attackers, defenders);
    ApplyAllIndex(attackers, defenders, possibilities, chance);
    assert forall k :: 0 <= k < |outcomes| ==> outcomes[k] == Apply(attackers, defenders, possibilities[k], chance);
    BattleConservesMass(attackers, defenders, chance);
  }
}
