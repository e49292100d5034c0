/** The turn loop of a battle between two trainers (Program.cs:137-197). */
module Battles {
  import opened Combat

  datatype Side = P1 | P2

  /** The random draws of one loop iteration: the coin that decides who acts first
      (Program.cs:175) and the accuracy roll of each side's attack (Program.cs:537). */
  datatype Rolls = Rolls(p1First: bool, hit1: bool, hit2: bool)

  /** The three narrated endings (Program.cs:190-195), plus `Undecided` when the supplied draws
      run out while both trainers can still fight. */
  datatype Outcome = P1Wins | P2Wins | Draw | Undecided

  /** No creature belongs to both rosters. */
  predicate Disjoint(xs: seq<Pokemon>, ys: seq<Pokemon>)
  {
    forall p :: p in xs ==> p !in ys
  }

  /** Two trainers that can face each other: distinct, each with its active creature in its own
      roster, every creature armed with an attack, and no creature shared. */
  ghost predicate Opponents(a: Trainer, b: Trainer)
    reads a, b
  {
    && a != b && a.Valid() && b.Valid()
    && Equipped(a.pokemons) && Equipped(b.pokemons)
    && Disjoint(a.pokemons, b.pokemons)
  }

  /** The forced switch of Program.cs:156-157 (and 163-164): a trainer whose active creature has
      fainted but who still has a usable one sends in a healthy replacement. */
  method ForcedSwitch(t: Trainer, opponent: Pokemon) returns (switch: Action)
    requires t.Valid() && Usable(t.pokemons) && t.active.HasFainted()
    modifies t
    ensures old(allocated(switch))
    ensures old(SwitchAccepted(t, switch)) && t.active == switch.target
  {
    ForcedSwitchHasTargets(t.pokemons, t.active);
    var target := t.ChooseSwitchTarget();
    switch := SwitchIn(target);
    var _ := target.Use(t, opponent);
  }

  function Other(side: Side): Side
  {
    if side == P1 then P2 else P1
  }

  /** What a turn changes, as a value: every creature's health and both active creatures. */
  datatype Snapshot = Snapshot(health: map<Pokemon, int>, active1: Pokemon, active2: Pokemon)
  {
    function Active(side: Side): Pokemon
    {
      if side == P1 then active1 else active2
    }

    function Health(p: Pokemon): int
    {
      if p in health then health[p] else 0
    }
  }

  /** A battle (Program.cs:137-197): it owns nothing but the two trainers. */
  class Battle {
    const p1: Trainer
    const p2: Trainer

    constructor (p1: Trainer, p2: Trainer)
      requires Opponents(p1, p2)
      ensures this.p1 == p1 && this.p2 == p2 && Valid()
    {
      this.p1 := p1;
      this.p2 := p2;
    }

    ghost predicate Valid()
      reads p1, p2
    {
      Opponents(p1, p2)
    }

    /** Every creature in the battle. */
    function Roster(): seq<Pokemon>
    {
      p1.pokemons + p2.pokemons
    }

    function TrainerOf(side: Side): Trainer
    {
      if side == P1 then p1 else p2
    }

    /** The current state of the battle as a value. */
    function Snap(): Snapshot
      reads p1, p2, Roster()
    {
      Snapshot(Healths(), p1.active, p2.active)
    }

    /** The health of every creature in the battle. */
    function Healths(): map<Pokemon, int>
      reads Roster()
    {
      map p | p in Roster() :: p.health
    }

    /** Both trainers still have a creature standing in `s`: the loop condition of
        Program.cs:152. */
    predicate Fighting(s: Snapshot)
    {
      && (exists p :: p in p1.pokemons && s.Health(p) > 0)
      && (exists p :: p in p2.pokemons && s.Health(p) > 0)
    }

    /** In `s`, `side` carries out the switch `a` (SwitchAccepted on a snapshot). */
    predicate AcceptsIn(s: Snapshot, side: Side, a: Action)
    {
      a.SwitchIn? && a.target in TrainerOf(side).pokemons && a.target != s.Active(side) && s.Health(a.target) > 0
    }

    /** In `s`, `a` is an action `side` can be handed (Offered on a snapshot). */
    predicate OfferedIn(s: Snapshot, side: Side, a: Action)
    {
      match a
      case Move(attack) => attack in s.Active(side).attacks
      case SwitchIn(_) => AcceptsIn(s, side, a)
    }

    /** The active creature of `side` after it uses `a` in `s`. */
    function ActiveAfter(s: Snapshot, side: Side, a: Action): Pokemon
    {
      if AcceptsIn(s, side, a) then a.target else s.Active(side)
    }

    /** `p` has not fainted in `t`. */
    predicate Standing(t: Snapshot, p: Pokemon)
    {
      t.Health(p) > 0
    }

    /** From `s` to `t`, `p`'s health changed exactly as `a` used on it does, `lands` saying
        that the roll hit and both creatures were standing. */
    predicate Struck(s: Snapshot, t: Snapshot, p: Pokemon, a: Action, lands: bool)
    {
      t.Health(p) == a.HealthAfter(s.Health(p), p.element, lands)
    }

    /** Every creature other than `x` and `y` has the same health in `s` and `t`. */
    predicate SameHealthBut(s: Snapshot, t: Snapshot, x: Pokemon, y: Pokemon)
    {
      forall p :: p in Roster() && p != x && p != y ==> t.Health(p) == s.Health(p)
    }

    /** From `s` to `t`, `side` used `a` against the other side's active creature `d`, as one
        `action.Use(trainer, opponent.Active)` of Program.cs:157-185 does: `side`'s active
        creature is the one `a` leaves in play, and only `d`'s health may have changed, as `a`
        used on it does when the roll hit and both creatures were standing. */
    predicate Played(s: Snapshot, t: Snapshot, side: Side, a: Action, hit: bool)
    {
      && t.Active(side) == ActiveAfter(s, side, a)
      && t.Active(Other(side)) == s.Active(Other(side))
      && Struck(s, t, s.Active(Other(side)), a,
                hit && Standing(s, s.Active(side)) && Standing(s, s.Active(Other(side))))
      && SameHealthBut(s, t, s.Active(Other(side)), s.Active(Other(side)))
    }

    /** A forced-switch iteration from `s` to `t` (Program.cs:154-167): `loser` switches in a
        healthy creature, then the other side's offered `reply` is used against it. */
    predicate ForcedStep(s: Snapshot, t: Snapshot, loser: Side, switch: Action, reply: Action, hit: bool)
    {
      && AcceptsIn(s, loser, switch)
      && OfferedIn(s, Other(loser), reply)
      && t.Active(loser) == switch.target
      && t.Active(Other(loser)) == ActiveAfter(s, Other(loser), reply)
      && t.Health(switch.target) ==
           reply.HealthAfter(s.Health(switch.target), switch.target.element,
                             hit && s.Health(s.Active(Other(loser))) > 0)
      && SameHealthBut(s, t, switch.target, switch.target)
    }

    /** A normal iteration from `s` to `t` (Program.cs:170-186): `first` uses its offered
        action against the other side's active creature `d`; if `d` still stands, the second
        side uses its offered action against `first`'s active creature of that moment. */
    predicate ExchangeStep(s: Snapshot, t: Snapshot, first: Side, firstAction: Action, secondAction: Action,
                           hitFirst: bool, hitSecond: bool)
    {
      && OfferedIn(s, first, firstAction) && OfferedIn(s, Other(first), secondAction)
      && t.Active(first) == ActiveAfter(s, first, firstAction)
      && Struck(s, t, s.Active(Other(first)), firstAction, hitFirst)
      && t.Active(Other(first)) ==
           (if Standing(t, s.Active(Other(first))) then ActiveAfter(s, Other(first), secondAction)
            else s.Active(Other(first)))
      && Struck(s, t, t.Active(first), secondAction, Standing(t, s.Active(Other(first))) && hitSecond)
      && SameHealthBut(s, t, s.Active(Other(first)), t.Active(first))
    }

    /** One iteration of the loop of Program.cs:152-188 from `s` to `t`, under the draws `r`,
        with `a1` and `a2` the actions handed to the two trainers. */
    predicate Step(s: Snapshot, t: Snapshot, r: Rolls, a1: Action, a2: Action)
    {
      if s.Health(s.active1) <= 0 then ForcedStep(s, t, P1, a1, a2, r.hit2)
      else if s.Health(s.active2) <= 0 then ForcedStep(s, t, P2, a2, a1, r.hit1)
      else if r.p1First then ExchangeStep(s, t, P1, a1, a2, r.hit1, r.hit2)
      else ExchangeStep(s, t, P2, a2, a1, r.hit2, r.hit1)
    }

    /** The creature whose fainted status a step from `s` to `t` may change: the creature sent
        in by a forced switch, or in a normal iteration the first side's target when it fainted
        and otherwise the creature the second side's action was used against. */
    function Exposed(s: Snapshot, t: Snapshot, r: Rolls, a1: Action, a2: Action): Pokemon
      requires Step(s, t, r, a1, a2)
    {
      if s.Health(s.active1) <= 0 then a1.target
      else if s.Health(s.active2) <= 0 then a2.target
      else
        var first := if r.p1First then P1 else P2;
        if Standing(t, s.Active(Other(first))) then t.Active(first) else s.Active(Other(first))
    }

    /** A creature that has fainted stays fainted, with its health untouched: Attack.Use
        (Program.cs:532-535) does nothing to a fainted defender, and a forced switch only sends
        in a healthy creature (Program.cs:361-362). */
    lemma StepKeepsFainted(s: Snapshot, t: Snapshot, r: Rolls, a1: Action, a2: Action)
      requires Step(s, t, r, a1, a2)
      ensures forall p :: p in Roster() && !Standing(s, p) ==> t.Health(p) == s.Health(p)
    {
    }

    /** In one step at most one creature changes between standing and fainted: the one
        `Exposed` names. In a normal iteration the second action is skipped once the first one
        fainted its target (Program.cs:180-186). */
    lemma StepFaintsOnlyExposed(s: Snapshot, t: Snapshot, r: Rolls, a1: Action, a2: Action)
      requires Step(s, t, r, a1, a2)
      ensures forall p :: p in Roster() && p != Exposed(s, t, r, a1, a2) ==> (Standing(t, p) <==> Standing(s, p))
    {
    }

    /** A step out of a fighting state leaves at least one trainer with a creature standing:
        the two trainers' standing creatures are distinct and at most one of them can faint. */
    lemma StepLeavesAFighter(s: Snapshot, t: Snapshot, r: Rolls, a1: Action, a2: Action)
      requires Valid() && Fighting(s) && Step(s, t, r, a1, a2)
      ensures (exists p :: p in p1.pokemons && Standing(t, p)) || (exists p :: p in p2.pokemons && Standing(t, p))
    {
    }

    /** Read on the snapshot, each trainer's roster is usable exactly when one of its creatures
        is standing. */
    lemma Tallied()
      requires Valid()
      ensures Usable(p1.pokemons) <==> exists p :: p in p1.pokemons && Standing(Snap(), p)
      ensures Usable(p2.pokemons) <==> exists p :: p in p2.pokemons && Standing(Snap(), p)
    {
      var s := Snap();
      assert forall p :: p in Roster() ==> s.Health(p) == p.health;
    }

    /** The snapshot records the current healths and active creatures. */
    lemma Recorded()
      requires Valid()
      ensures forall p :: p in Roster() ==> Snap().Health(p) == p.health
      ensures Snap().active1 == p1.active && Snap().active2 == p2.active
    {
    }

    /** Read on the snapshot, `side` accepts and can be handed the same actions as its
        trainer. */
    lemma OfferedNow(side: Side, a: Action)
      requires Valid()
      ensures AcceptsIn(Snap(), side, a) <==> SwitchAccepted(TrainerOf(side), a)
      ensures Offered(TrainerOf(side), a) ==> OfferedIn(Snap(), side, a)
    {
    }

    /** A forced switch that changes no health, followed by the other side's play, is a
        `ForcedStep`. */
    lemma SwitchThenPlay(s: Snapshot, s1: Snapshot, u: Snapshot, loser: Side, switch: Action, reply: Action, hit: bool)
      requires AcceptsIn(s, loser, switch)
      requires s1.health == s.health && s1.Active(loser) == switch.target
      requires s1.Active(Other(loser)) == s.Active(Other(loser))
      requires OfferedIn(s1, Other(loser), reply) && Played(s1, u, Other(loser), reply, hit)
      ensures ForcedStep(s, u, loser, switch, reply, hit)
    {
    }

    /** One `action.Use(trainer, opponent.Active)` of Program.cs:157-185: `side` uses `a`
        against the other side's active creature. */
    method Play(side: Side, a: Action, hit: bool)
      requires Valid() && Offered(TrainerOf(side), a)
      modifies p1, p2, p1.pokemons, p2.pokemons
      ensures Valid()
      ensures OfferedIn(old(Snap()), side, a)
      ensures Played(old(Snap()), Snap(), side, a, hit)
    {
      Recorded();
      OfferedNow(side, a);
      var attacker, defender := TrainerOf(side), TrainerOf(Other(side));
      var _ := a.Use(attacker, defender.active, hit);
      Recorded();
    }

    /** One forced-switch iteration (Program.cs:154-167): the fainted side switches, then the
        other side chooses and uses an action against the creature just sent in. */
    method ForcedTurn(loser: Side, hit: bool) returns (switch: Action, reply: Action)
      requires Valid() && Usable(TrainerOf(loser).pokemons) && TrainerOf(loser).active.HasFainted()
      modifies p1, p2, p1.pokemons, p2.pokemons
      ensures Valid()
      ensures ForcedStep(old(Snap()), Snap(), loser, switch, reply, hit)
    {
      ghost var s := Snap();
      var t, o := TrainerOf(loser), TrainerOf(Other(loser));
      switch := ForcedSwitch(t, o.active);
      reply := o.ChooseBattleAction();
      ghost var s1 := Snap();
      assert s1.health == s.health && s1.Active(Other(loser)) == s.Active(Other(loser));
      Play(Other(loser), reply, hit);
      SwitchThenPlay(s, s1, Snap(), loser, switch, reply, hit);
    }

    /** The two actions of a normal iteration, in the order the coin chose (Program.cs:176-186):
        `first` uses `firstAction`, and the other side uses `secondAction` only if neither
        active creature fainted meanwhile. */
    method Exchange(first: Side, firstAction: Action, secondAction: Action, hitFirst: bool, hitSecond: bool)
      returns (secondRan: bool)
      requires Valid() && !p1.active.HasFainted() && !p2.active.HasFainted()
      requires Offered(TrainerOf(first), firstAction) && Offered(TrainerOf(Other(first)), secondAction)
      modifies p1, p2, p1.pokemons, p2.pokemons
      ensures Valid()
      ensures ExchangeStep(old(Snap()), Snap(), first, firstAction, secondAction, hitFirst, hitSecond)
      ensures secondRan <==> !old(TrainerOf(Other(first)).active).HasFainted()
    {
      ghost var s := Snap();
      Recorded();
      OfferedNow(Other(first), secondAction);
      Play(first, firstAction, hitFirst);
      ghost var s1 := Snap();
      Recorded();
      secondRan := !p1.active.HasFainted() && !p2.active.HasFainted();
      if secondRan {
        OfferedNow(Other(first), secondAction);
        Play(Other(first), secondAction, hitSecond);
      }
    }

    /** A normal iteration, in the order the coin chose, is a `Step`. */
    lemma ExchangeIsStep(s: Snapshot, t: Snapshot, r: Rolls, a1: Action, a2: Action)
      requires Standing(s, s.active1) && Standing(s, s.active2)
      requires if r.p1First then ExchangeStep(s, t, P1, a1, a2, r.hit1, r.hit2)
               else ExchangeStep(s, t, P2, a2, a1, r.hit2, r.hit1)
      ensures Step(s, t, r, a1, a2)
    {
    }

    /** The normal iteration of Program.cs:170-186: both trainers choose, then the coin decides
        whose action is used first. */
    method Contest(rolls: Rolls) returns (executed: seq<Side>, p1Action: Action, p2Action: Action)
      requires Valid() && !p1.active.HasFainted() && !p2.active.HasFainted()
      modifies p1, p2, p1.pokemons, p2.pokemons
      ensures Valid()
      ensures Step(old(Snap()), Snap(), rolls, p1Action, p2Action)
      ensures rolls.p1First ==> executed == (if old(p2.active).HasFainted() then [P1] else [P1, P2])
      ensures !rolls.p1First ==> executed == (if old(p1.active).HasFainted() then [P2] else [P2, P1])
    {
      p1Action := p1.ChooseBattleAction();
      p2Action := p2.ChooseBattleAction();
      ghost var s := Snap();
      assert s == old(Snap());
      Recorded();
      var secondRan;
      if rolls.p1First {
        secondRan := Exchange(P1, p1Action, p2Action, rolls.hit1, rolls.hit2);
        executed := if secondRan then [P1, P2] else [P1];
      } else {
        secondRan := Exchange(P2, p2Action, p1Action, rolls.hit2, rolls.hit1);
        executed := if secondRan then [P2, P1] else [P2];
      }
      ExchangeIsStep(s, Snap(), rolls, p1Action, p2Action);
    }

    /** The body of the loop of Program.cs:152-188, as a `Step` of the battle's snapshot.
        `p1Action` and `p2Action` are the actions the two trainers were handed (a forced switch
        for a side whose active creature had fainted); `executed` lists the sides whose action
        was used, in order. */
    method Turn(rolls: Rolls) returns (executed: seq<Side>, p1Action: Action, p2Action: Action)
      requires Valid() && Usable(p1.pokemons) && Usable(p2.pokemons)
      modifies p1, p2, p1.pokemons, p2.pokemons
      ensures Valid()
      ensures Step(old(Snap()), Snap(), rolls, p1Action, p2Action)
      ensures old(p1.active.HasFainted()) ==> executed == [P1, P2]
      ensures !old(p1.active.HasFainted()) && old(p2.active.HasFainted()) ==> executed == [P2, P1]
      ensures !old(p1.active.HasFainted()) && !old(p2.active.HasFainted()) && rolls.p1First ==>
                executed == (if old(p2.active).HasFainted() then [P1] else [P1, P2])
      ensures !old(p1.active.HasFainted()) && !old(p2.active.HasFainted()) && !rolls.p1First ==>
                executed == (if old(p1.active).HasFainted() then [P2] else [P2, P1])
    {
      Recorded();
      if p1.active.HasFainted() {
        p1Action, p2Action := ForcedTurn(P1, rolls.hit2);
        executed := [P1, P2];
      } else if p2.active.HasFainted() {
        p2Action, p1Action := ForcedTurn(P2, rolls.hit1);
        executed := [P2, P1];
      } else {
        executed, p1Action, p2Action := Contest(rolls);
      }
    }

    /** `trace` is a run of the loop of Program.cs:152-188: each state but the last is
        fighting and steps to the next under the matching draws and handed actions. */
    predicate Chain(trace: seq<Snapshot>, handed: seq<(Action, Action)>, rolls: seq<Rolls>)
      decreases |handed|
    {
      && |trace| == |handed| + 1 && |handed| <= |rolls|
      && (|handed| > 0 ==>
            var n := |handed| - 1;
            && Chain(trace[..n + 1], handed[..n], rolls)
            && Fighting(trace[n]) && Step(trace[n], trace[n + 1], rolls[n], handed[n].0, handed[n].1))
    }

    /** A chain grows by one more fighting step. */
    lemma Extended(trace: seq<Snapshot>, handed: seq<(Action, Action)>, rolls: seq<Rolls>,
                   t: Snapshot, a1: Action, a2: Action)
      requires Chain(trace, handed, rolls) && |handed| < |rolls|
      requires Fighting(trace[|handed|]) && Step(trace[|handed|], t, rolls[|handed|], a1, a2)
      ensures Chain(trace + [t], handed + [(a1, a2)], rolls)
    {
    }

    /** Every step of a chain, read by position: state `i` is fighting and steps to state
        `i + 1` under `rolls[i]` with the actions `handed[i]`. */
    lemma {:induction false} ChainSteps(trace: seq<Snapshot>, handed: seq<(Action, Action)>, rolls: seq<Rolls>)
      requires Chain(trace, handed, rolls)
      ensures forall i :: 0 <= i < |handed| ==>
                Fighting(trace[i]) && Step(trace[i], trace[i + 1], rolls[i], handed[i].0, handed[i].1)
      decreases |handed|
    {
      if |handed| > 0 {
        var n := |handed| - 1;
        ChainSteps(trace[..n + 1], handed[..n], rolls);
      }
    }

    /** Along a chain, a creature that has fainted stays fainted. */
    lemma {:induction false} ChainKeepsFainted(trace: seq<Snapshot>, handed: seq<(Action, Action)>, rolls: seq<Rolls>)
      requires Chain(trace, handed, rolls)
      ensures forall p :: p in Roster() && !Standing(trace[0], p) ==> !Standing(trace[|handed|], p)
      decreases |handed|
    {
      if |handed| > 0 {
        var n := |handed| - 1;
        ChainKeepsFainted(trace[..n + 1], handed[..n], rolls);
        StepKeepsFainted(trace[n], trace[n + 1], rolls[n], handed[n].0, handed[n].1);
      }
    }

    /** After at least one step of a chain, some trainer still has a creature standing. */
    lemma ChainLeavesAFighter(trace: seq<Snapshot>, handed: seq<(Action, Action)>, rolls: seq<Rolls>)
      requires Valid() && Chain(trace, handed, rolls) && |handed| > 0
      ensures (exists p :: p in p1.pokemons && Standing(trace[|handed|], p))
           || (exists p :: p in p2.pokemons && Standing(trace[|handed|], p))
    {
    }

    /** The loop condition of Program.cs:152: whether each trainer still has a creature that
        has not fainted. Asking changes nothing. */
    method Standings() returns (fit1: bool, fit2: bool)
      requires Valid()
      ensures fit1 == Usable(p1.pokemons) && fit2 == Usable(p2.pokemons)
      ensures Snap() == old(Snap())
    {
      fit1 := p1.HasNonFaintedPokemon();
      fit2 := p2.HasNonFaintedPokemon();
    }

    /** The loop of Program.cs:152-188, run for at most `|rolls|` iterations: it continues
        while both trainers can fight. `turns` counts the iterations taken, `trace` holds the
        battle's state before each of them and at the end, and `handed` the actions the two
        trainers were handed in each; `fit1` and `fit2` are the last evaluation of the loop
        condition. */
    method Fight(rolls: seq<Rolls>)
      returns (fit1: bool, fit2: bool, turns: nat, ghost trace: seq<Snapshot>, ghost handed: seq<(Action, Action)>)
      requires Valid()
      modifies p1, p2, p1.pokemons, p2.pokemons
      ensures Valid()
      ensures fit1 == Usable(p1.pokemons) && fit2 == Usable(p2.pokemons)
      ensures fit1 && fit2 ==> turns == |rolls|
      ensures old(!Usable(p1.pokemons) || !Usable(p2.pokemons)) ==> turns == 0
      ensures |handed| == turns && Chain(trace, handed, rolls)
      ensures trace[0] == old(Snap()) && trace[turns] == Snap()
    {
      fit1, fit2 := Standings();
      turns := 0;
      trace := [Snap()];
      handed := [];
      while fit1 && fit2 && turns < |rolls|
        invariant Valid() && 0 <= turns <= |rolls|
        invariant fit1 == Usable(p1.pokemons) && fit2 == Usable(p2.pokemons)
        invariant old(!Usable(p1.pokemons) || !Usable(p2.pokemons)) ==> turns == 0
        invariant |handed| == turns && Chain(trace, handed, rolls)
        invariant trace[0] == old(Snap()) && trace[turns] == Snap()
      {
        Tallied();
        var _, a1, a2 := Turn(rolls[turns]);
        fit1, fit2 := Standings();
        ghost var t := Snap();
        Extended(trace, handed, rolls, t, a1, a2);
        trace := trace + [t];
        handed := handed + [(a1, a2)];
        turns := turns + 1;
      }
    }

    /** Program.cs:148-196, with the loop run for at most `|rolls|` iterations: the loop, then
        the verdict, which names the side that can still fight. */
    method Run(rolls: seq<Rolls>)
      returns (outcome: Outcome, turns: nat, ghost trace: seq<Snapshot>, ghost handed: seq<(Action, Action)>)
      requires Valid()
      modifies p1, p2, p1.pokemons, p2.pokemons
      ensures Valid()
      ensures turns <= |rolls| && |trace| == turns + 1 && |handed| == turns
      ensures trace[0] == old(Snap()) && trace[turns] == Snap()
      ensures Chain(trace, handed, rolls)
      ensures outcome == P1Wins ==> Usable(p1.pokemons) && !Usable(p2.pokemons)
      ensures outcome == P2Wins ==> !Usable(p1.pokemons) && Usable(p2.pokemons)
      ensures outcome == Draw ==> !Usable(p1.pokemons) && !Usable(p2.pokemons)
      ensures outcome == Undecided ==> Usable(p1.pokemons) && Usable(p2.pokemons) && turns == |rolls|
      ensures outcome == Draw <==> old(!Usable(p1.pokemons) && !Usable(p2.pokemons))
      ensures forall p :: p in Roster() && old(p.HasFainted()) ==> p.HasFainted()
    {
      Recorded();
      Tallied();
      var fit1, fit2;
      fit1, fit2, turns, trace, handed := Fight(rolls);
      Recorded();
      Tallied();
      ChainKeepsFainted(trace, handed, rolls);
      if turns > 0 {
        ChainLeavesAFighter(trace, handed, rolls);
      }
      if fit1 && fit2 {
        outcome := Undecided;
      } else if fit1 {
        outcome := P1Wins;
      } else if fit2 {
        outcome := P2Wins;
      } else {
        outcome := Draw;
      }
    }
  }
}
