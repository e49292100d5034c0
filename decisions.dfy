/** The decision-engine abstraction (Program.cs:377-393, 582-635). */
module Decisions {

  /** The two kinds of battle action a trainer may choose (Program.cs:402-406). */
  datatype BattleChoice = Attack | Switch

  /** The list offered to the decision engine for a battle action: Attack always, Switch only
      when some other creature can be switched in (Program.cs:379-381). */
  function Alternatives(canSwitch: bool): (r: seq<BattleChoice>)
    ensures |r| > 0 && r[0] == Attack
    ensures Switch in r <==> canSwitch
    ensures forall i, j :: 0 <= i < j < |r| ==> r[i] != r[j]
  {
    if canSwitch then [Attack, Switch] else [Attack]
  }

  /** A decision engine picks some element of a non-empty list. The random engine indexes the
      list with a random draw (Program.cs:624-625) and the interactive one returns the menu item
      the human confirmed; both are covered by an unconstrained choice of index. */
  method Pick<T>(alternatives: seq<T>) returns (choice: T)
    requires |alternatives| > 0
    ensures choice in alternatives
  {
    var i :| 0 <= i < |alternatives|;
    choice := alternatives[i];
  }
}
