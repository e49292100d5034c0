/** The elemental affinity table (Program.cs:484-517): a fixed relation on four elements. */
module Elements {

  datatype Element = Normal | Fire | Water | Grass

  /** Fire beats Grass, Water beats Fire, Grass beats Water; Normal beats nothing. */
  function IsStrongAgainst(attacker: Element, defender: Element): (r: bool)
    ensures r ==> attacker != Normal && defender != Normal && attacker != defender
  {
    match attacker
    case Fire => defender == Grass
    case Water => defender == Fire
    case Grass => defender == Water
    case Normal => false
  }

  /** Written out as its own table in the source; it is exactly the strong relation reversed. */
  function IsWeakAgainst(attacker: Element, defender: Element): (r: bool)
    ensures r <==> IsStrongAgainst(defender, attacker)
  {
    match attacker
    case Fire => defender == Water
    case Water => defender == Grass
    case Grass => defender == Fire
    case Normal => false
  }

  /** No element is both strong and weak against the same opponent. */
  lemma NeverStrongAndWeak(attacker: Element, defender: Element)
    ensures !(IsStrongAgainst(attacker, defender) && IsWeakAgainst(attacker, defender))
  {
  }

  /** The strong relation is asymmetric: two elements never beat each other. */
  lemma StrongIsAsymmetric(a: Element, b: Element)
    ensures IsStrongAgainst(a, b) ==> !IsStrongAgainst(b, a)
  {
  }

  /** Normal is neutral in both directions. */
  lemma NormalIsNeutral(e: Element)
    ensures !IsStrongAgainst(Normal, e) && !IsWeakAgainst(Normal, e)
    ensures !IsStrongAgainst(e, Normal) && !IsWeakAgainst(e, Normal)
  {
  }

  /** Each of Fire, Water and Grass is strong against exactly one element and weak against exactly one. */
  lemma OnePreyOnePredator(e: Element)
    requires e != Normal
    ensures |set d: Element | IsStrongAgainst(e, d)| == 1
    ensures |set d: Element | IsWeakAgainst(e, d)| == 1
  {
    match e
    case Fire =>
      assert IsStrongAgainst(e, Grass) && IsWeakAgainst(e, Water);
      assert (set d: Element | IsStrongAgainst(e, d)) == {Grass};
      assert (set d: Element | IsWeakAgainst(e, d)) == {Water};
    case Water =>
      assert IsStrongAgainst(e, Fire) && IsWeakAgainst(e, Grass);
      assert (set d: Element | IsStrongAgainst(e, d)) == {Fire};
      assert (set d: Element | IsWeakAgainst(e, d)) == {Grass};
    case Grass =>
      assert IsStrongAgainst(e, Water) && IsWeakAgainst(e, Fire);
      assert (set d: Element | IsStrongAgainst(e, d)) == {Water};
      assert (set d: Element | IsWeakAgainst(e, d)) == {Fire};
  }
}
