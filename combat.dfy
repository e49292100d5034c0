/** Creatures, their attacks and their trainers (Program.cs:303-579): health, damage,
    switching, the roster scans and the construction of the lists a trainer chooses from. */
module Combat {
  import opened Elements
  import Decisions
  import opened Numbers

  /** C#'s `x / 2` on `int`: the quotient truncated toward zero (Program.cs:547). */
  function HalveTowardZero(x: int): (r: int)
    ensures x >= 0 ==> 0 <= x - 2 * r <= 1
    ensures x < 0 ==> -1 <= x - 2 * r <= 0
  {
    if x >= 0 then x / 2 else -((-x) / 2)
  }

  /** The damage a hitting attack of base power `power` deals (Program.cs:543-547): doubled when
      its element is strong against the defender's, halved when weak, unchanged otherwise. */
  function ScaledDamage(power: int, attacker: Element, defender: Element): (r: int)
    ensures IsStrongAgainst(attacker, defender) ==> r == 2 * power
    ensures IsWeakAgainst(attacker, defender) ==> r == HalveTowardZero(power)
    ensures attacker == Normal || defender == Normal || attacker == defender ==> r == power
    ensures power >= 0 ==> 0 <= r <= 2 * power
  {
    if IsStrongAgainst(attacker, defender) then power * 2
    else if IsWeakAgainst(attacker, defender) then HalveTowardZero(power)
    else power
  }

  /** For a positive power, an advantaged attack hurts more than a neutral one, and a neutral one
      more than a disadvantaged one. */
  lemma DamageOrdering(power: int, attacker: Element, strongTarget: Element, neutralTarget: Element, weakTarget: Element)
    requires power > 0
    requires IsStrongAgainst(attacker, strongTarget)
    requires !IsStrongAgainst(attacker, neutralTarget) && !IsWeakAgainst(attacker, neutralTarget)
    requires IsWeakAgainst(attacker, weakTarget)
    ensures ScaledDamage(power, attacker, strongTarget) > ScaledDamage(power, attacker, neutralTarget)
    ensures ScaledDamage(power, attacker, neutralTarget) > ScaledDamage(power, attacker, weakTarget)
  {
    NeverStrongAndWeak(attacker, weakTarget);
  }

  /** Health after taking `damage`, floored at 0 (Program.cs:456-457). */
  function HealthAfterDamage(health: int, damage: int): (r: int)
    ensures r >= 0
    ensures r == 0 <==> health <= damage
    ensures r > 0 ==> r == health - damage
  {
    Max(0, health - damage)
  }

  /** A non-negative hit never raises health, and a fainted creature stays at 0. */
  lemma DamageNeverHeals(health: int, damage: int)
    requires damage >= 0
    ensures HealthAfterDamage(health, damage) <= Max(health, 0)
    ensures health <= 0 ==> HealthAfterDamage(health, damage) == 0
  {
  }

  /** The super-effective example: a Fire power-10 attack on a 30-hp Grass creature leaves 10. */
  lemma FireOnGrassLeavesTen()
    ensures HealthAfterDamage(30, ScaledDamage(10, Fire, Grass)) == 10
  {
  }

  /** The narrated messages (`ui.PrintMessage`) of an attack or a switch, as a log. */
  datatype Event =
    | Used(trainer: string, pokemon: string, attack: string)
    | Missed
    | SuperEffective
    | NotVeryEffective
    | Fainted(pokemon: string)
    | CalledBack(trainer: string, pokemon: string)
    | SentOut(trainer: string, pokemon: string)

  /** A move: immutable name, element and base power (Program.cs:520-579). */
  datatype Attack = Attack(name: string, element: Element, damage: int)
  {
    /** Program.cs:561-562, delegating through the defender's weakness. */
    function IsStrongAgainstPokemon(enemy: Pokemon): (r: bool)
      ensures r <==> IsStrongAgainst(element, enemy.element)
    {
      enemy.IsWeakAgainstElement(element)
    }

    /** Program.cs:564-565, delegating through the defender's strength. */
    function IsWeakAgainstPokemon(enemy: Pokemon): (r: bool)
      ensures r <==> IsWeakAgainst(element, enemy.element)
    {
      enemy.IsStrongAgainstElement(element)
    }

    /** Attack.Use (Program.cs:530-559). `hit` is the outcome of the accuracy roll. */
    method Use(attacker: Trainer, defender: Pokemon, hit: bool) returns (events: seq<Event>)
      modifies defender
      ensures old(attacker.active.HasFainted()) || old(defender.HasFainted()) ==>
                defender.health == old(defender.health) && events == []
      ensures !old(attacker.active.HasFainted()) && !old(defender.HasFainted()) ==>
                |events| > 0 && events[0] == Used(attacker.name, attacker.active.name, name)
      ensures !hit ==> defender.health == old(defender.health)
      ensures !old(attacker.active.HasFainted()) && !old(defender.HasFainted()) && !hit ==>
                events[1..] == [Missed]
      ensures !old(attacker.active.HasFainted()) && !old(defender.HasFainted()) && hit ==>
                && defender.health == HealthAfterDamage(old(defender.health), ScaledDamage(damage, element, defender.element))
                && events == [events[0]]
                             + (if IsStrongAgainst(element, defender.element) then [SuperEffective]
                                else if IsWeakAgainst(element, defender.element) then [NotVeryEffective]
                                else [])
                             + (if defender.HasFainted() then [Fainted(defender.name)] else [])
    {
      if attacker.HasActiveFainted() || defender.HasFainted() {
        return [];
      }
      events := [Used(attacker.name, attacker.active.name, name)];
      if !hit {
        events := events + [Missed];
        return;
      }
      var adjustedDamage := damage;
      if ElementStrongAgainstPokemon(element, defender) {
        adjustedDamage := adjustedDamage * 2;
      } else if ElementWeakAgainstPokemon(element, defender) {
        adjustedDamage := HalveTowardZero(adjustedDamage);
      }
      defender.TakeDamage(adjustedDamage);
      if ElementStrongAgainstPokemon(element, defender) {
        events := events + [SuperEffective];
      } else if ElementWeakAgainstPokemon(element, defender) {
        events := events + [NotVeryEffective];
      }
      if defender.HasFainted() {
        events := events + [Fainted(defender.name)];
      }
    }
  }

  /** `Element.IsStrongAgainst(Pokemon)` (Program.cs:512-513): asks the defender whether it is weak. */
  function ElementStrongAgainstPokemon(attacker: Element, defender: Pokemon): (r: bool)
    ensures r <==> IsStrongAgainst(attacker, defender.element)
  {
    defender.IsWeakAgainstElement(attacker)
  }

  /** `Element.IsWeakAgainst(Pokemon)` (Program.cs:515-516): asks the defender whether it is strong. */
  function ElementWeakAgainstPokemon(attacker: Element, defender: Pokemon): (r: bool)
    ensures r <==> IsWeakAgainst(attacker, defender.element)
  {
    defender.IsStrongAgainstElement(attacker)
  }

  /** A combatant (Program.cs:414-482). Only its health changes. */
  class Pokemon {
    const name: string
    const element: Element
    const attacks: seq<Attack>
    const maxHealth: int
    var health: int

    constructor (name: string, element: Element, attacks: seq<Attack>,
                 health: int := 30, maxHealth: int := 30)
      ensures this.name == name && this.element == element && this.attacks == attacks
      ensures this.health == health && this.maxHealth == maxHealth
    {
      this.name := name;
      this.element := element;
      this.attacks := attacks;
      this.health := health;
      this.maxHealth := maxHealth;
    }

    /** Program.cs:429: a creature is out of the fight once its health reaches zero or below. */
    predicate HasFainted()
      reads this
    {
      health <= 0
    }

    /** Program.cs:444-445: this creature's element beats `opponent`. */
    function IsStrongAgainstElement(opponent: Element): (r: bool)
      ensures r ==> !IsWeakAgainstElement(opponent)
    {
      IsStrongAgainst(element, opponent)
    }

    /** Program.cs:447-448: `opponent` beats this creature's element. */
    function IsWeakAgainstElement(opponent: Element): (r: bool)
      ensures r <==> IsStrongAgainst(opponent, element)
    {
      IsWeakAgainst(element, opponent)
    }

    /** Program.cs:450-451, through `Element.IsStrongAgainst(Pokemon)`. */
    function IsStrongAgainstPokemon(opponent: Pokemon): (r: bool)
      ensures r <==> IsStrongAgainst(element, opponent.element)
    {
      ElementStrongAgainstPokemon(element, opponent)
    }

    /** Program.cs:453-454, through `Element.IsWeakAgainst(Pokemon)`. */
    function IsWeakAgainstPokemon(opponent: Pokemon): (r: bool)
      ensures r <==> IsWeakAgainst(element, opponent.element)
    {
      ElementWeakAgainstPokemon(element, opponent)
    }

    method TakeDamage(damage: int)
      modifies this
      ensures health == HealthAfterDamage(old(health), damage)
    {
      health := Max(0, health - damage);
    }

    /** The switch action (Program.cs:459-471): switching to the active creature or to a fainted
        one does nothing; otherwise the trainer is asked to switch, which it does only when this
        creature is in its roster. The messages are emitted even when the trainer refuses. */
    method Use(attacker: Trainer, defender: Pokemon) returns (events: seq<Event>)
      modifies attacker
      ensures old(attacker.active) == this || HasFainted() ==>
                attacker.active == old(attacker.active) && events == []
      ensures old(attacker.active) != this && !HasFainted() ==>
                && (attacker.active == this <==> this in attacker.pokemons)
                && (attacker.active != this ==> attacker.active == old(attacker.active))
                && events == (if old(attacker.active).HasFainted() then []
                              else [CalledBack(attacker.name, old(attacker.active).name)])
                             + [SentOut(attacker.name, name)]
    {
      var previous := attacker.active;
      if previous == this || HasFainted() {
        return [];
      }
      events := [];
      if !previous.HasFainted() {
        events := [CalledBack(attacker.name, previous.name)];
      }
      attacker.SwitchTo(this);
      events := events + [SentOut(attacker.name, name)];
    }
  }

  /** Some creature of the roster can still fight. */
  predicate Usable(roster: seq<Pokemon>)
    reads roster
  {
    exists p :: p in roster && !p.HasFainted()
  }

  /** Every creature of the roster has at least one attack (squads are built with four). */
  predicate Equipped(roster: seq<Pokemon>)
  {
    forall p :: p in roster ==> |p.attacks| > 0
  }

  /** The roster members, in roster order, that are neither `active` nor fainted. */
  function SwitchTargets(roster: seq<Pokemon>, active: Pokemon): (r: seq<Pokemon>)
    reads roster
    ensures |r| <= |roster|
  {
    if roster == [] then []
    else
      var last := roster[|roster| - 1];
      var rest := SwitchTargets(roster[..|roster| - 1], active);
      if last != active && !last.HasFainted() then rest + [last] else rest
  }

  /** A creature is offered as a switch target exactly when it is in the roster, is not the active
      one and has not fainted. */
  lemma {:induction false} SwitchTargetsMembers(roster: seq<Pokemon>, active: Pokemon, p: Pokemon)
    ensures p in SwitchTargets(roster, active) <==> p in roster && p != active && !p.HasFainted()
  {
    if roster != [] {
      var init := roster[..|roster| - 1];
      SwitchTargetsMembers(init, active, p);
      assert roster == init + [roster[|roster| - 1]];
    }
  }

  /** With the active creature fainted and some creature still usable, there is a switch target. */
  lemma ForcedSwitchHasTargets(roster: seq<Pokemon>, active: Pokemon)
    requires Usable(roster) && active.HasFainted()
    ensures SwitchTargets(roster, active) != []
  {
    var p :| p in roster && !p.HasFainted();
    SwitchTargetsMembers(roster, active, p);
  }

  /** A trainer (Program.cs:303-394). The roster is fixed at construction; only `active` changes. */
  class Trainer {
    const name: string
    const pokemons: seq<Pokemon>
    var active: Pokemon

    constructor (name: string, active: Pokemon, inactives: seq<Pokemon>)
      ensures this.name == name && this.active == active && pokemons == [active] + inactives
      ensures Valid()
    {
      this.name := name;
      this.active := active;
      this.pokemons := [active] + inactives;
    }

    /** The active creature is always drawn from the roster. */
    ghost predicate Valid()
      reads this
    {
      active in pokemons
    }

    /** Program.cs:315: the creature in play is out of the fight. */
    predicate HasActiveFainted()
      reads this, active
    {
      active.HasFainted()
    }

    /** Program.cs:317-326. */
    method HasPokemonsToSwitchTo() returns (b: bool)
      ensures b <==> exists p :: p in pokemons && p != active && !p.HasFainted()
    {
      for i := 0 to |pokemons|
        invariant forall j :: 0 <= j < i ==> pokemons[j] == active || pokemons[j].HasFainted()
      {
        if pokemons[i] != active && !pokemons[i].HasFainted() {
          return true;
        }
      }
      return false;
    }

    /** Program.cs:328-337. */
    method HasNonFaintedPokemon() returns (b: bool)
      ensures b <==> Usable(pokemons)
    {
      for i := 0 to |pokemons|
        invariant forall j :: 0 <= j < i ==> pokemons[j].HasFainted()
      {
        if !pokemons[i].HasFainted() {
          return true;
        }
      }
      return false;
    }

    /** Program.cs:339-345: any roster member, fainted or not, strong against the opponent. */
    method HasStrongAgainst(opponent: Pokemon) returns (b: bool)
      ensures b <==> exists p :: p in pokemons && IsStrongAgainst(p.element, opponent.element)
    {
      for i := 0 to |pokemons|
        invariant forall j :: 0 <= j < i ==> !IsStrongAgainst(pokemons[j].element, opponent.element)
      {
        if pokemons[i].IsStrongAgainstPokemon(opponent) {
          return true;
        }
      }
      return false;
    }

    /** Program.cs:359-363: only a roster member can become active. */
    method SwitchTo(target: Pokemon)
      modifies this
      ensures active == (if target in pokemons then target else old(active))
      ensures old(Valid()) ==> Valid()
    {
      if target in pokemons {
        active := target;
      }
    }

    /** Program.cs:365-366. */
    method ChooseAttack() returns (attack: Attack)
      requires |active.attacks| > 0
      ensures attack in active.attacks
    {
      attack := Decisions.Pick(active.attacks);
    }

    /** The list built by the loop of Program.cs:370-373. */
    method SwitchChoices() returns (choices: seq<Pokemon>)
      ensures choices == SwitchTargets(pokemons, active)
    {
      choices := [];
      for i := 0 to |pokemons|
        invariant choices == SwitchTargets(pokemons[..i], active)
      {
        assert pokemons[..i + 1][..i] == pokemons[..i];
        if pokemons[i] != active && !pokemons[i].HasFainted() {
          choices := choices + [pokemons[i]];
        }
      }
      assert pokemons[..|pokemons|] == pokemons;
    }

    /** Program.cs:368-375. The caller guarantees a target exists. */
    method ChooseSwitchTarget() returns (target: Pokemon)
      requires exists p :: p in pokemons && p != active && !p.HasFainted()
      ensures target in pokemons && target != active && !target.HasFainted()
    {
      var choices := SwitchChoices();
      var p :| p in pokemons && p != active && !p.HasFainted();
      SwitchTargetsMembers(pokemons, active, p);
      target := Decisions.Pick(choices);
      SwitchTargetsMembers(pokemons, active, target);
    }

    /** Program.cs:377-393: pick Attack or (when possible) Switch, then the attack or target. */
    method ChooseBattleAction() returns (action: Action)
      requires |active.attacks| > 0
      ensures Offered(this, action)
    {
      var canSwitch := HasPokemonsToSwitchTo();
      var choice := Decisions.Pick(Decisions.Alternatives(canSwitch));
      match choice
      case Attack =>
        var attack := ChooseAttack();
        action := Move(attack);
      case Switch =>
        var target := ChooseSwitchTarget();
        action := SwitchIn(target);
    }
  }

  /** The super-effective scenario run through the model: a Fire creature's power-10 Fire
      attack hits a 30-hp Grass creature. */
  method SuperEffectiveScenario() returns (health: int, events: seq<Event>)
    ensures health == 10
    ensures events == [Used("RED", "Charmander", "Ember"), SuperEffective]
  {
    var ember := Attack("Ember", Fire, 10);
    var charmander := new Pokemon("Charmander", Fire, [ember], 30, 30);
    var bulbasaur := new Pokemon("Bulbasaur", Grass, [Attack("Razor Leaf", Grass, 10)], 30, 30);
    var red := new Trainer("RED", charmander, []);
    events := ember.Use(red, bulbasaur, true);
    health := bulbasaur.health;
  }

  /** The uniform action a trainer hands to the battle (IAction, Program.cs:396-400). */
  datatype Action = Move(attack: Attack) | SwitchIn(target: Pokemon)
  {
    /** The health a defender of element `defender` is left with after this action, where
        `lands` says that the accuracy roll hit and both creatures were still standing. */
    function HealthAfter(health: int, defender: Element, lands: bool): int
    {
      if Move? && lands then HealthAfterDamage(health, ScaledDamage(attack.damage, attack.element, defender))
      else health
    }

    /** Program.cs:396-400: an attack changes only the defender's health, a switch only the
        attacker's active creature. */
    method Use(attacker: Trainer, defender: Pokemon, hit: bool) returns (events: seq<Event>)
      modifies attacker, defender
      ensures attacker.active == (if old(SwitchAccepted(attacker, this)) then target else old(attacker.active))
      ensures defender.health ==
                HealthAfter(old(defender.health), defender.element,
                            hit && !old(attacker.active.HasFainted()) && !old(defender.HasFainted()))
    {
      match this
      case Move(a) =>
        events := a.Use(attacker, defender, hit);
      case SwitchIn(t) =>
        events := t.Use(attacker, defender);
    }
  }

  /** `a` is a switch that trainer `t` carries out: to a healthy member of its roster other than
      its active creature (Program.cs:464-465, 361-362). */
  predicate SwitchAccepted(t: Trainer, a: Action)
    reads t, t.pokemons
  {
    a.SwitchIn? && a.target in t.pokemons && a.target != t.active && !a.target.HasFainted()
  }

  /** `a` is one of the actions trainer `t` can be handed by its decision engine: one of its
      active creature's attacks, or an accepted switch (Program.cs:365-393). */
  predicate Offered(t: Trainer, a: Action)
    reads t, t.pokemons
  {
    match a
    case Move(attack) => attack in t.active.attacks
    case SwitchIn(_) => SwitchAccepted(t, a)
  }
}
