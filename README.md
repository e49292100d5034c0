# Creature-battle rules, modelled in Dafny

This project models the battle rules of a turn-based creature-battle game (`Program.cs`).
Two trainers each own a fixed roster of creatures ("pokemon") with one of them active. Each
turn they choose to attack with a move of the active creature or to switch to another
creature. Attacks hit or miss on one accuracy roll. Damage is scaled by a fixed elemental
affinity table and floors health at 0. The battle loop runs until one trainer has no creature
left that has not fainted.

Modules, one per component of the source:

- `Elements` (`elements.dfy`): the four elements and the strong/weak table.
- `Decisions` (`decisions.dfy`): the Attack/Switch choice and the decision engine. The engine is
  modelled as `Pick`, an unconstrained choice of some element of a non-empty list. This covers
  both the random engine and a human picking from a menu.
- `Combat` (`combat.dfy`): moves (`Attack`, a datatype), creatures (`Pokemon`, a class whose
  `health` changes), trainers (`Trainer`, a class whose `active` changes over a constant
  roster) and the `Action` union of "use a move" and "switch to a creature". It holds the damage
  arithmetic, the roster scans and the construction of the lists a trainer chooses from.
  The narrated messages of an attack or a switch are returned as an event log.
- `Battles` (`battles.dfy`): the battle loop. The state of a battle is read as a value, a
  `Snapshot`: every creature's health and both active creatures. One iteration of the loop is
  stated as a `Step` from one snapshot to the next. `Turn` carries out one iteration and
  ensures that `Step`. `Run` is the loop, driven by a finite sequence of random draws. Its
  ghost `trace` holds the snapshot before each iteration and at the end, and consecutive
  snapshots are related by `Step` (the predicate `Chain`).
- `Menus` (`menus.dfy`): the vertical-list cursor and the bounded upper-case text buffer.
- `Numbers` (`numbers.dfy`): the two `Math` library functions used, `Max` and `Clamp`.

Randomness is passed in as data. The coin that decides who acts first and the accuracy roll of
each side's attack are the fields of `Battles.Rolls`. The draw behind a random pick is the free
choice inside `Decisions.Pick`. A roll of `hit == true` stands for
`NextDouble() <= accuracy`.

Notes on the source's behaviour:

- A switch to a creature outside the trainer's roster is refused by `Trainer.SwitchTo`. But
  `Pokemon.Use` still emits its "called back" and "sent out" messages; it is not a silent
  no-op. `Combat.Pokemon.Use` states exactly this.
- The loop does not necessarily terminate: a switch or a miss deals no damage, so two trainers
  can go on forever. By the `Step` that `Battles.Battle.Turn` ensures, a turn in which both
  rolls miss changes no health at all. `Run` therefore takes its draws as a finite sequence and reports
  `Undecided` when they run out.
- The draw ending can only happen when neither trainer had a usable creature at the start
  (`Battles.Battle.Run`). A turn causes at most one creature to faint
  (`Battles.Battle.StepFaintsOnlyExposed`), and the two rosters share no creature.
- `Pokemon.HasFainted` (Program.cs:429, health at or below 0) and `Trainer.HasActiveFainted`
  (Program.cs:315) are plain predicates; every contract above is phrased with them.

## Model

| member | source | states |
|---|---|---|
| `Elements.IsStrongAgainst` | Program.cs:494-501 | a strong pair involves two different elements, neither of them Normal |
| `Elements.IsWeakAgainst` | Program.cs:503-510 | the weak table is exactly the strong table with the roles swapped |
| `Elements.StrongIsAsymmetric` | Program.cs:494-501 | no two elements are strong against each other |
| `Elements.NeverStrongAndWeak` | Program.cs:494-510 | no pair is both strong and weak |
| `Elements.NormalIsNeutral` | Program.cs:494-510 | Normal is neither strong nor weak against anything, and nothing is strong or weak against it |
| `Elements.OnePreyOnePredator` | Program.cs:494-510 | each non-Normal element is strong against exactly one element and weak against exactly one |
| `Decisions.Alternatives` | Program.cs:379-381 | the battle-action list is non-empty, starts with Attack, has no duplicates, and holds Switch exactly when switching is possible |
| `Decisions.Pick` | Program.cs:624-625 | the engine returns an element of the non-empty list it is given |
| `Combat.HalveTowardZero` | Program.cs:547 | integer halving truncates toward zero, as C# `/` does |
| `Combat.ScaledDamage` | Program.cs:543-547 | damage is doubled when strong, halved (truncated) when weak, unchanged when Normal or same-element is involved, and stays in [0, 2·power] for a non-negative power |
| `Combat.DamageOrdering` | Program.cs:543-547 | for a positive power, strong damage > neutral damage > weak damage |
| `Combat.HealthAfterDamage` | Program.cs:456-457 | health after damage is never negative, is 0 exactly when the damage reaches the health, and otherwise is health minus damage |
| `Combat.DamageNeverHeals` | Program.cs:456-457 | with non-negative damage health never rises, and a fainted creature stays at 0 |
| `Combat.FireOnGrassLeavesTen` | Program.cs:543-549 | a Fire power-10 attack leaves a 30-hp Grass creature at 10 |
| `Combat.Attack.IsStrongAgainstPokemon` | Program.cs:561-562 | the attack's advantage, asked through the defender's weakness, is the table's strong relation |
| `Combat.Attack.IsWeakAgainstPokemon` | Program.cs:564-565 | the attack's disadvantage, asked through the defender's strength, is the table's weak relation |
| `Combat.Attack.Use` | Program.cs:530-559 | with the attacker's active or the defender fainted nothing changes and nothing is said; a miss changes no health and says "used, missed"; a hit applies the scaled, floored damage and says "used", then the effectiveness note, then "fainted" exactly when the defender fainted |
| `Combat.ElementStrongAgainstPokemon` | Program.cs:512-513 | asking the defender whether it is weak against the element gives the strong relation |
| `Combat.ElementWeakAgainstPokemon` | Program.cs:515-516 | asking the defender whether it is strong against the element gives the weak relation |
| `Combat.Pokemon.constructor` | Program.cs:414-428 | the creature starts with the given name, element, moves, health and maximum health, both 30 by default |
| `Combat.Pokemon.IsStrongAgainstElement` | Program.cs:444-445 | when the creature's element is strong against the given one, the creature is not also weak against it |
| `Combat.Pokemon.IsWeakAgainstElement` | Program.cs:447-448 | the creature is weak against an element exactly when that element is strong against the creature's |
| `Combat.Pokemon.IsStrongAgainstPokemon` | Program.cs:450-451 | creature-vs-creature advantage is the strong relation of their elements |
| `Combat.Pokemon.IsWeakAgainstPokemon` | Program.cs:453-454 | creature-vs-creature disadvantage is the weak relation of their elements |
| `Combat.Pokemon.TakeDamage` | Program.cs:456-457 | the new health is the old health minus the damage, floored at 0 |
| `Combat.Pokemon.Use` | Program.cs:459-471 | switching to the active or a fainted creature changes nothing and says nothing; otherwise the creature becomes active exactly when it is in the roster, and "called back" (only if the old active had not fainted) and "sent out" are said either way |
| `Combat.SwitchTargetsMembers` | Program.cs:370-373 | a creature is offered as a switch target exactly when it is in the roster, not active and not fainted |
| `Combat.ForcedSwitchHasTargets` | Program.cs:152-157 | with some creature usable and the active one fainted, the switch-target list is non-empty |
| `Combat.SuperEffectiveScenario` | Program.cs:530-559 | running the attack leaves the Grass defender at 10 hp, and the log is "used" followed by "super effective" |
| `Combat.Trainer.constructor` | Program.cs:303-313 | the roster is the active creature followed by the others, and the active creature is in it |
| `Combat.Trainer.HasPokemonsToSwitchTo` | Program.cs:317-326 | true exactly when some roster member other than the active one has not fainted |
| `Combat.Trainer.HasNonFaintedPokemon` | Program.cs:328-337 | true exactly when some roster member has not fainted |
| `Combat.Trainer.HasStrongAgainst` | Program.cs:339-345 | true exactly when some roster member, fainted or not, has an element strong against the opponent's |
| `Combat.Trainer.SwitchTo` | Program.cs:359-363 | the active creature becomes the target exactly when it is in the roster, so the active creature stays in the roster |
| `Combat.Trainer.ChooseAttack` | Program.cs:365-366 | the chosen move is one of the active creature's moves |
| `Combat.Trainer.SwitchChoices` | Program.cs:370-373 | the list handed to the engine is the roster filtered, in order, to non-active, non-fainted members |
| `Combat.Trainer.ChooseSwitchTarget` | Program.cs:368-375 | the chosen creature is in the roster, not active and not fainted |
| `Combat.Trainer.ChooseBattleAction` | Program.cs:377-393 | the action handed back is offered: a move of the active creature, or a switch to a roster member that is neither active nor fainted, so Switch never reaches an empty list |
| `Combat.Action.Use` | Program.cs:396-400 | the active creature changes only for a switch the trainer accepts (a healthy roster member other than the active one); the defender's health changes only for a move whose roll hits while attacker and defender stand, and then by the scaled, floored damage |
| `Battles.ForcedSwitch` | Program.cs:154-157 | the trainer is handed a switch to a healthy roster member other than its fainted active creature, and that creature becomes active |
| `Battles.Battle.Play` | Program.cs:157-185 | one `action.Use(trainer, opponent.Active)` line, read on snapshots: the action was offered; the side's active creature becomes the one the action leaves in play (the switch target only for an accepted switch); the other side's active creature stays; its health changes exactly as the action used on it does, which is only for a hitting move while both creatures stand; no other creature's health changes |
| `Battles.Battle.ForcedTurn` | Program.cs:154-167 | a `ForcedStep`: the fainted side switches in a healthy roster member other than its active creature; the other side's offered action is then used against that creature, which is the only creature whose health may change, and only if the other side's active creature stands and its roll hits |
| `Battles.Battle.Exchange` | Program.cs:176-186 | an `ExchangeStep`: the first action is used against the second side's active creature; the second action is used, against the first side's active creature of that moment, exactly when the creature just attacked still stands; no third creature's health changes |
| `Battles.Battle.Contest` | Program.cs:170-186 | both trainers are handed offered actions, and the result is a `Step` in which the side the coin picks acts first |
| `Battles.Battle.Turn` | Program.cs:152-188 | the iteration is a `Step` under the draws: a forced step for a side whose active creature fainted (P1 checked first), otherwise an exchange in the coin's order; `executed` lists the sides whose action was used, in order |
| `Battles.Battle.StepKeepsFainted` | Program.cs:152-188 | in any `Step`, a fainted creature keeps its health, so stays fainted |
| `Battles.Battle.StepFaintsOnlyExposed` | Program.cs:176-186 | in any `Step`, every creature but one is standing afterwards exactly when it was before; the exception is the creature a forced switch sent in, or in an exchange the first action's target if it fainted and otherwise the second action's target |
| `Battles.Battle.StepLeavesAFighter` | Program.cs:152-188 | a `Step` out of a state where both trainers can fight leaves at least one trainer with a standing creature |
| `Battles.Battle.ChainSteps` | Program.cs:152-188 | in a `Chain`, state `i` is fighting and steps to state `i + 1` under draw `i` with the actions handed in iteration `i`, for every `i` |
| `Battles.Battle.ChainKeepsFainted` | Program.cs:152-188 | along a `Chain`, a creature fainted in the first state is fainted in the last |
| `Battles.Battle.ChainLeavesAFighter` | Program.cs:152-188 | after at least one step of a `Chain`, some trainer has a standing creature |
| `Battles.Battle.Standings` | Program.cs:152 | the two loop-condition calls report whether each roster is usable and change nothing |
| `Battles.Battle.Fight` | Program.cs:152-188 | the loop runs while both trainers can fight and draws remain; its trace starts at the initial state, ends at the final one and is a `Chain`; it stops early only when a trainer can no longer fight, and takes no iteration when one could not from the start |
| `Battles.Battle.constructor` | Program.cs:137-146 | a battle holds the two trainers it is given, which must be opponents: distinct, with disjoint rosters of creatures that each have a move, as every trainer factory builds them |
| `Battles.Battle.Run` | Program.cs:148-196 | the trace runs from the initial to the final state and each of its `turns` iterations is a `Step` out of a fighting state under the matching draw; a trainer is declared winner only if it still has a usable creature and the other has none; a draw happens exactly when neither trainer started with a usable creature; `Undecided` only when every draw was used and both can still fight; fainted creatures stay fainted |
| `Numbers.Clamp` | Program.cs:713-717 | the clamped cursor lies in [min, max], equals the value when it is already inside and the nearer bound otherwise |
| `Menus.DownThenUp` | Program.cs:713-717 | down then up returns to the same item, except from the last one |
| `Menus.VerticalMenu.constructor` | Program.cs:697-702 | the menu holds the given items with the cursor at the given index, 0 by default |
| `Menus.VerticalMenu.Up` | Program.cs:713-714 | the cursor moves up by one, saturating at the first item, and always ends inside the list |
| `Menus.VerticalMenu.Down` | Program.cs:716-717 | the cursor moves down by one, saturating at the last item, and always ends inside the list |
| `Menus.VerticalMenu.Left` | Program.cs:719 | Left moves the cursor exactly as Up does |
| `Menus.VerticalMenu.Right` | Program.cs:720 | Right moves the cursor exactly as Down does |
| `Menus.VerticalMenu.SendChar` | Program.cs:721 | a typed character changes nothing |
| `Menus.VerticalMenu.Delete` | Program.cs:722 | delete changes nothing |
| `Menus.VerticalMenu.SelectedItem` | Program.cs:723 | the selected value is one of the menu's values |
| `Menus.ToUpper` | Program.cs:739 | a letter or digit becomes an upper-case letter or digit; only lower-case letters change |
| `Menus.AlphanumericMenu.constructor` | Program.cs:726-728 | the buffer starts empty |
| `Menus.AlphanumericMenu.SendChar` | Program.cs:736-740 | the upper-cased character is appended only for a letter or digit while the buffer is shorter than the bound; the buffer stays bounded and upper-case |
| `Menus.AlphanumericMenu.Delete` | Program.cs:742-743 | the last character is removed, and the empty buffer stays empty |

## Left out

- Console rendering is not modelled, because it is pure I/O: `Display`, `BattleComponent`, `printMessageBox`, `PrintMessage`, `Redraw`, the menus' `Draw`, `Pokemon.HealthBar` and every `Summary` string.
- The battle loop's own narration ("must choose a new Pokemon", "'s turn", "wins!", "It's a draw!") is not logged. `Battles.Battle.Run` returns the ending as an `Outcome` instead.
- `InteractiveNavigator` and `InteractiveDecisionEngine` are not modelled, because they block on key presses. Their result is covered by `Decisions.Pick`, and the menus they drive are modelled on their own.
- `TrainerFactory`, `ComputerTrainerFactory`, `HumanTrainerFactory` and `Game` are not modelled, because they only do random roster generation and console prompts. The `Battles.Battle` constructor requires what they always produce: two distinct trainers, rosters that share no creature, and at least one move per creature.
- `System.Random` is not modelled. Each draw is an input (`Battles.Rolls`) or the free choice inside `Decisions.Pick`.
- The accuracy value of a move is not modelled, because it is a double. The roll against it is the `hit` input.
- Decisions.Pick: states only that the choice is an element of the list, not that the random engine chooses uniformly, because probabilities are outside the model. The `player`, `opponent` and `ui` arguments are dropped: the random engine ignores all three, and the interactive engine uses only `opponent` and `ui`, for display.
- Battles.Battle.Run: runs at most one iteration per supplied `Rolls` and ends `Undecided` when they run out, because the source loop need not terminate.
- Menus.VerticalMenu.Up: requires a non-empty menu. On an empty menu the source calls `Math.Clamp(…, 0, -1)`, which throws `ArgumentException` (Program.cs:714); that exception is not modelled.
- Menus.VerticalMenu.Down: requires a non-empty menu, for the same reason (Program.cs:717).
- Menus.VerticalMenu.Left: requires a non-empty menu, as it is `Up` (Program.cs:719).
- Menus.VerticalMenu.Right: requires a non-empty menu, as it is `Down` (Program.cs:720).
- Menus.VerticalMenu.SelectedItem: requires the cursor to lie inside the list. The source indexes `items[selectedIndex]` (Program.cs:723) and throws `ArgumentOutOfRangeException` for an out-of-range index, such as a constructor index outside the list (Program.cs:699); that exception is not modelled.
- Combat.ScaledDamage: does not model 32-bit overflow of `damage * 2` or `Health - damage`. Moves have power 5 to 15 and creatures 30 hp.
- Menus.ToUpper: models `Char.ToUpper` on ASCII only. `Menus.IsLetterOrDigit` likewise accepts only ASCII letters and digits, not all Unicode letters.
- `Pokemon.MaxHealth` is kept as a constant but is never enforced, as in the source. It is only read by the health bar.
