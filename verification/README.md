# Limbus Company PvP: the combat engine

A model of the combat-resolution engine of a two-player, turn-based duel
game (`main.py`). Two teams of characters face each other, and each team has
one objective character, "Mephistopheles". In every act each player declares
actions: a character uses one of its skills against a character of the other
team. The declared actions wait in a list ordered by the attacker's speed.
The list is then resolved fastest first, as one-sided attacks or as clashes.

- **Damage types and resistances** (`skills.dfy`, module `Skills`):
  - the damage types and their case-insensitive parsing;
  - per-type resistance multipliers, counted exactly in halves (0.5, 1 and 2
    are 1, 2 and 4 halves);
  - Python's `int(value * multiplier)` truncation;
  - skills: a base value, a coin count, a coin value and a damage type.
- **Turn state of a character** (`vitals.dfy`, module `Vitality`, as values;
  `character.dfy`, module `Characters`, as the class that updates its fields
  in place):
  - damage lowers both pools and clamps them at 0;
  - a pool at 0 arms the death timer (3) or the stagger timer (2);
  - every turn start counts the timers down and refills a pool whose timer
    is 0;
  - the multiplier is 2 while staggered;
  - `Target` decides whether a clash may be offered.
- **The action list** (`actions.dfy`, module `Actions`). It holds at most one
  pending action per attacker name. Re-declaring replaces the pending action
  where it stands. A new action goes in front of the first strictly slower
  one.
- **Resolution** (`battle.dfy`, module `Combat`):
  - a one-sided attack flips its coins one by one, adds each head to a
    running total, and deals the truncated total times the defender's
    current multiplier after every coin, stopping when the defender dies;
  - a clash plays rounds: every remaining coin of both sides is flipped, and
    the lower value loses one coin;
  - the side left without coins loses;
  - the winner gains `10 + rounds` sanity and attacks one-sided, skipping the
    coins it lost.
- **The game manager** (`game.dfy`, module `Game`):
  - starting an act ticks every character;
  - declaring inserts an action;
  - resolving drains the list, and a clash also takes the defender's own
    pending action out of the list;
  - the order in which the list is drained is a schedule of steps (`Pop`,
    `Schedule`) that uses every pending action exactly once, and resolution
    runs a prefix of it (`RunSteps`), stopping at the step that ends the
    game or runs out of draws.

Randomness is injected. A coin flip consumes one draw from a sequence of
integers (in 0..99 in the game) and lands on heads when `draw < 50 + sanity`.
A speed roll is a parameter. When the draws run out, resolution ends with
`OutOfDraws`. The source's `sys.exit()` on the objective's death becomes the
outcome `ObjectiveDestroyed`.

The objective is a `Character` with `isObjective` set, in place of a
subclass. Its resistance of 1 for every type is two halves.

Six behaviours of main.py are easy to misread; the model follows the code:
- Re-declaring keeps the action's old place in the list, even when the new
  speed is different (main.py:390-393). `Actions.RedeclareKeepsPlace` shows
  that a fastest-first list then stops being fastest first.
- A turn start refills hit points (or stagger) whenever the death (or
  stagger) timer is 0, not only on the turn start at which it expires
  (main.py:97-98, main.py:101-102). Every turn start therefore fully heals a
  living, unstaggered character (`Vitality.TickRestoresHealthy`).
- Every hit on a staggered character re-arms the stagger timer at 2
  (main.py:113-117).
- When the defender wins a clash, it attacks its own declared target with
  its own skill (main.py:317). That target need not be the attacker.
- A hit on a character that is already dead re-arms its death timer at 3.
- The winner's follow-up attack flips its coins with the sanity it has just
  gained.

## Model

| member | source | states |
|---|---|---|
| Skills.FromStr | main.py:15-24 | a label is accepted exactly when its upper-cased form is SLASH, PIERCE or BASH, and the result's label is that form; anything else is the error case `None` |
| Skills.FromStrLabel | main.py:15-24 | parsing inverts labelling: any spelling whose upper-case form is a type's label parses to that type |
| Skills.FromStrLowerCase | main.py:15-24 | the lower-case labels used when skills are built parse to their types, and an unknown label is rejected |
| Skills.Resistance.OfType | main.py:35-40 | the multiplier is the resistance's slash, pierce or bash component, matching the damage type |
| Skills.Scaled | main.py:260 | `int(value * multiplier)` truncates toward zero: for non-negative values the result is the floor of the exact product and non-negative; for negative values it is the ceiling |
| Skills.UpperChar | main.py:17 | ASCII upper-casing turns a small letter into the capital at the same place in the alphabet and leaves every other character alone |
| Skills.Upper | main.py:17 | a string is upper-cased letter by letter: same length, each small letter replaced by its capital, every other character kept |
| Skills.UpperIdempotent | main.py:17 | upper-casing twice is upper-casing once |
| Skills.UpperLabel | main.py:17-23 | the three labels are already upper case, so a label parses as written |
| Vitality.MultFor | main.py:105-108 | the multiplier is 2 (four halves) while the stagger pool is empty, and the resistance for the type otherwise |
| Vitality.AfterDamage | main.py:111-120 | both pools drop by the damage (stagger only when not already 0) and are clamped at 0; a pool reaching 0 arms its timer (3 for death, 2 for stagger), and the two checks are independent |
| Vitality.DamageKeepsValid | main.py:111-120 | non-negative damage keeps hit points in 0..maxhp and stagger in 0..maxstag, with non-negative timers and an empty pool whenever its timer runs |
| Vitality.Tick | main.py:93-102 | a turn start decrements each positive timer, refills a pool whose timer is then 0, and never drives a timer below 0 |
| Vitality.TickKeepsValid | main.py:93-102 | a turn start keeps the pool and timer invariant |
| Vitality.DeathCountdown | main.py:93-98 | after k turn starts the death timer is max(timer - k, 0), and hit points are full exactly from the first turn start at which the timer is 0 |
| Vitality.StaggerCountdown | main.py:99-102 | the same for the stagger timer and the stagger pool |
| Vitality.RevivesAfterThreeTicks | main.py:76-78 | a character that has just died has 0 hit points after one and two turn starts, and full hit points with the timer at 0 after exactly three |
| Vitality.RecoversAfterTwoTicks | main.py:72-74 | a character that has just been staggered is still empty after one turn start and full again after two |
| Vitality.TickRestoresHealthy | main.py:93-102 | every turn start restores a living, unstaggered character to full pools |
| Characters.Character.constructor | main.py:45-70 | a new character has full pools, speed 0 and no running timer, and keeps the stats it was given |
| Characters.Character.Objective | main.py:196-198 | the objective: 50 hit points, 100 stagger, sanity 0, speed range 0..0, resistance 1 for every type, three empty slash skills |
| Characters.Character.Stagger | main.py:72-74 | arms the stagger timer at 2 and changes nothing else |
| Characters.Character.Die | main.py:76-78 | arms the death timer at 3 and changes nothing else |
| Characters.Character.TakeDamage | main.py:111-120 | the new state is `AfterDamage` of the old one; sanity and speed are untouched; the invariant is kept for non-negative damage |
| Characters.Character.NextTurn | main.py:80-102 | a regular character takes the speed roll and its state becomes `Tick` of the old one; the objective changes nothing; the invariant is kept |
| Characters.CoinHeads | main.py:89-91 | a coin lands heads exactly when its draw is below 50 plus the flipper's sanity |
| Characters.Character.CoinToss | main.py:89-91 | a character's coin flip is `CoinHeads` of the draw with the character's own current sanity |
| Characters.Character.IsAlive | main.py:83-84 | a character is alive exactly when its hit points are above 0 |
| Characters.Character.IsStagger | main.py:86-87 | a character is staggered exactly when its stagger pool is below 1 |
| Characters.Character.FindMult | main.py:105-108 | the damage multiplier of the character's current state: 2 while staggered, otherwise its resistance to the damage type (`MultFor`) |
| Characters.Character.Target | main.py:123-144 | the answer is a clash if and only if the target is not the objective, the attacker is strictly faster, the target is not staggered, and the player chose a clash |
| Characters.FreshMultiplier | main.py:105-108 | a freshly built character that is not staggered takes exactly its given resistance for every damage type |
| Characters.SanityDecidesCoin | main.py:89-91 | for draws in 0..99, sanity 50 or more makes every coin heads and sanity -50 or less makes every coin tails |
| Actions.AttIndex | main.py:388-415 | the index of the first action by that attacker name: no earlier action has the name, and the one at the index does, or the whole length when none has it |
| Actions.SlotFor | main.py:396-401 | the index of the first strictly slower action: every earlier one is at least as fast, or the whole length when none is slower |
| Actions.Added | main.py:388-401 | the list after declaring: a known attacker's action is replaced where it stands, a new one goes in front of the first strictly slower action, or at the end |
| Actions.AddedNew | main.py:396-401 | a new attacker's action is inserted at one index, growing the list by one; every action before it is at least as fast, the one after it is strictly slower, and the others keep their order |
| Actions.AddedKnown | main.py:390-393 | a known attacker's action is replaced at its old index; the length and every other entry stay |
| Actions.AddedUnique | main.py:388-401 | declaring keeps at most one action per attacker name, and the declared action is in the list |
| Actions.AddedMembers | main.py:388-401 | declaring adds no action other than the declared one |
| Actions.AddedSorted | main.py:396-401 | on a fastest-first list, declaring a new attacker keeps the list fastest first |
| Actions.SpeedOrderExample | main.py:388-401 | declarations at speeds 5, 9 and 3 leave the list in the order 9, 5, 3 |
| Actions.RedeclareKeepsPlace | main.py:390-393 | re-declaring faster keeps the old place, so a fastest-first list can stop being fastest first |
| Actions.ActionList.constructor | main.py:385-386 | the list starts empty |
| Actions.ActionList.AddAction | main.py:388-401 | the new list is `Added` of the old one, so the `Added` lemmas apply; at most one action per attacker name is kept |
| Actions.ActionList.RemoveAllActions | main.py:403-404 | the list becomes empty |
| Actions.ActionList.FindAndRemoveByAttacker | main.py:406-415 | returns the first action whose attacker has the defender's name and deletes only that entry; with no match it returns `None` and leaves the list unchanged; with unique names, no action by that name is left |
| Actions.ActionList.Length | main.py:417-418 | the length is 0 exactly when the list is empty |
| Actions.ActionList.GetTopAndRemove | main.py:420-421 | on a non-empty list, returns the first action and removes exactly it |
| Combat.Verdict | main.py:264-268 | the game ends exactly when the defender died and is the objective; the draws ran out exactly when an attack stopped for lack of draws |
| Combat.Flips | main.py:243-268 | the coins of a one-sided attack from a given coin on: each head adds the coin value to the running total, the defender takes the truncated total times its multiplier for that coin, and the attack stops when the defender dies or the draws run out |
| Combat.FlipsBounds | main.py:243-268 | an attack from coin `coin_lost` on uses one draw per coin, at most `coinnum - coin_lost` of them; without a coin flipped the defender is unchanged; it stops early only when the defender dies or the draws run out; a living defender not killed stays alive |
| Combat.FlipsKeepValid | main.py:243-268 | an attack with a non-negative skill keeps the defender's pool and timer invariant |
| Combat.HeadAgainstWeakness | main.py:243-262 | a one-coin 4+7 slash skill landing heads on an unstaggered target with slash resistance 2 deals 22 |
| Combat.StaggerMidAttack | main.py:249-262 | the multiplier is read again for every coin: once the first coin staggers the target, the second coin deals (4 + 2) * 2 |
| Combat.Showing | main.py:283-293 | the value a side shows in a clash round is at least its base value |
| Combat.Rounds | main.py:280-305 | the clash rounds: each round flips every remaining coin of the attacker, then of the defender; the lower value loses a coin, a tie loses none; the rounds stop when a side has no coin, or give no result when the draws run out |
| Combat.RoundsBounds | main.py:280-305 | a decided clash ends with a side out of coins; the lost coins stay within each skill's coins; every lost coin took a round; every round used at least two draws |
| Combat.OneLoser | main.py:280-317 | unless both skills have no coins, a decided clash has exactly one side with all its coins lost |
| Combat.NoCoinsNoRounds | main.py:280-317 | two coinless skills play no round, so both count as winners with round count 0 |
| Combat.AllHeads | main.py:89-91 | with sanity 50 or more every draw in 0..99 lands heads, so a side shows its base plus every coin's value |
| Combat.EqualHeadsNeverDecide | main.py:280-305 | two sides with sanity 50 or more and coined skills of equal full value tie in every round: no sequence of draws in 0..99 decides the clash |
| Combat.RoundsShort | main.py:280-293 | with fewer draws left than the coins of the next round, the clash is undecided |
| Combat.RoundsStep | main.py:294-305 | one round: the attacker's higher value costs the defender exactly one coin, the defender's costs the attacker one, and a tie costs neither |
| Combat.TossRemaining | main.py:286-293 | flips one draw for every coin a side still has, adding the coin value on each head; it fails exactly when too few draws remain |
| Combat.ClashRounds | main.py:271-305 | the loop computes `Rounds` from no lost coins, and when some skill has a coin a decided clash has exactly one loser |
| Combat.Strike | main.py:243-268 | a one-sided attack on a roster's standing: the defender's turn state becomes `Flips` of it with the attacker's sanity; the outcome is the attack's verdict; the roster is the same |
| Combat.ClashOn | main.py:270-317 | a clash on a roster's standing: `Rounds` with both sanities as they stand, then the attacker's follow-up if the defender lost every coin, then the defender's if the attacker did; the roster is the same |
| Combat.BattleOn | main.py:234-241 | one step on a roster's standing: nothing against a dead defender, `ClashOn` for a clash, otherwise `Strike` with every coin; the roster is the same |
| Combat.IsClash | main.py:231-232 | a clash happens exactly for a clash action whose defender's own action was found and whose defender is not staggered |
| Combat.StrikeFrame | main.py:243-268 | on a roster's standing, a one-sided attack changes only its target, and only the target's turn state: every sanity and speed is kept |
| Combat.StrikeKeepsValid | main.py:243-268 | a one-sided attack with a non-negative skill keeps every character's pool and timer invariant |
| Combat.ClashSanity | main.py:306-317 | after a decided clash the attacker's sanity is up by `10 + rounds` exactly when the defender lost all its coins, and the defender's exactly when the attacker did; otherwise it is unchanged; an undecided clash changes no one |
| Combat.ClashNoCoins | main.py:306-317 | with two coinless skills both sides win, each gains 10 sanity, no one is hit and no draw is used |
| Combat.ClashTieNeverDecided | main.py:270-305 | such a tied clash leaves every character unchanged and ends as `OutOfDraws`, for every sequence of draws in 0..99 |
| Combat.ClashOnFrame | main.py:270-317 | a clash changes only the attacker, the defender and the defender's own target, and no one's speed |
| Combat.ClashOnKeepsValid | main.py:270-317 | a clash with non-negative skills keeps every character's invariant |
| Combat.AttackerFollowUpKeepsValid | main.py:306-311 | the attacker's follow-up after a won clash keeps every character's invariant |
| Combat.DefenderFollowUpKeepsValid | main.py:312-317 | the defender's follow-up after a won clash keeps every character's invariant |
| Combat.RaiseKeepsValid | main.py:307-308 | a sanity gain keeps every character's invariant |
| Combat.WonKeepsValid | main.py:306-317 | a winner's sanity gain followed by its one-sided attack keeps every character's invariant |
| Combat.BattleOnFrame | main.py:234-241 | one resolution step changes only its attacker, its defender and the target of the defender's own action, and no one's speed |
| Combat.BattleOnKeepsValid | main.py:234-241 | one resolution step keeps every character's invariant |
| Combat.OneSideAttack | main.py:243-268 | the roster's new standing, the unused draws and the outcome are those of `Strike` on the standing before: the defender's turn state becomes `Flips` of the old one from `coin_lost` on with the attacker's sanity; everyone else, and every sanity and speed, stays; the objective's death ends the game |
| Combat.RestoreSanity | main.py:307-308 | the winner's sanity rises by the gain, and nothing else on the roster changes (`Raise`) |
| Combat.Win | main.py:306-311 | a clash winner's follow-up is `Won`: its sanity gain, then its one-sided attack from its own lost-coin count with the raised sanity |
| Combat.DefenderWins | main.py:312-317 | the defender's follow-up starts from the standing the attacker's follow-up left, and is `DefenderFollowUp` of it |
| Combat.FollowUps | main.py:306-317 | after a decided clash, the attacker's follow-up and then the defender's, on the roster exactly as the two follow-up functions say |
| Combat.Clash | main.py:270-317 | the roster's new standing, the outcome and the unused draws are those of `ClashOn` on the standing before: rounds with both sanities from before the clash, then each winner's follow-up; with `ClashSanity`, `ClashNoCoins` and `ClashOnFrame` this fixes every sanity, who is hit, and that no third character or speed changes |
| Combat.Battle | main.py:231-241 | the roster's new standing is `BattleOn` of the standing before: nothing against a dead defender; a clash exactly when the action is a clash, the defender's own action was found and the defender is not staggered; otherwise a one-sided attack with every coin; `BattleOnFrame` keeps everyone else and every speed |
| Game.DistinctJoin | main.py:498-501 | two teams without a shared character make one roster without repeats, so ticking one character leaves the others alone |
| Game.SameName | main.py:406-415 | under the game's naming rule, a non-objective character's name picks out that very character |
| Game.PopDeclared | main.py:503-505 | popping the front keeps the pending list well-formed and yields a declared action |
| Game.RemoveDeclared | main.py:406-415 | removing any one entry of a well-formed pending list keeps it well-formed, including one action per attacker name, and yields a declared action |
| Game.AddDeclared | main.py:468-480 | declaring a well-formed action keeps the pending list well-formed |
| Game.Pop | main.py:505-508 | a step is taken from the front of the list: its attack is the first action, and the list left is shorter |
| Game.Schedule | main.py:503-508 | the steps in which a pending list is resolved: `Pop` the front step, then the schedule of what it leaves, until the list is empty |
| Game.After | main.py:503-508 | the list left after some steps is never longer than the list before |
| Game.PopTakes | main.py:505-508 | a step takes its actions out of the list and leaves every other one: the list is the step's actions plus the rest, as multisets |
| Game.PopOk | main.py:505-508 | a step taken from a well-formed pending list is between characters of the roster, its defence is by the attack's defender, and the rest stays well-formed |
| Game.ScheduleUsesAll | main.py:503-508 | the order of resolution takes every pending action exactly once |
| Game.ScheduleOk | main.py:503-508 | every step of the schedule of a well-formed pending list is between characters of the roster |
| Game.RunSteps | main.py:503-528 | steps are resolved in order until one ends the game or runs out of draws; when all resolve, every step was taken, and otherwise at least one |
| Game.RunSnoc | main.py:503-528 | while every earlier step resolved, the next step continues from the standing they left |
| Game.RunStops | main.py:503-528 | once a step ends the resolution, the steps after it change nothing |
| Game.RunFrame | main.py:503-528 | resolution changes no speed, and nothing of a character that takes part in no step |
| Game.RunKeepsValid | main.py:503-528 | resolution keeps every character's invariant |
| Game.GameManager.constructor | main.py:424-428 | the manager starts at act 0 with the given list and teams, and with the game's invariant when the roster and the list meet it |
| Game.GameManager.ChangeSide | main.py:440-441 | the two teams swap roles; the roster and the act are unchanged |
| Game.GameManager.NextTurn | main.py:498-501 | the act counter goes up by one, and every character of both teams takes its own turn start (`Ticked`) |
| Game.GameManager.Declare | main.py:468-480 | the new list is `Added` of the old one with the action the chosen attacker builds: its speed, the chosen skill, the target and `Target`'s mode |
| Game.GameManager.TakeNext | main.py:505-508 | takes the fastest action; a clash action also takes the defender's pending action, found by name; the list shrinks by one, or by two when that action was found; the step and the list left are `Pop` of the old list |
| Game.GameManager.Play | main.py:528 | one step on the roster is `BattleOn` of the standing before, and keeps the game's invariant |
| Game.GameManager.ResolveNext | main.py:504-528 | one turn of the loop: the list left is `Pop`'s rest, and the roster's new standing is `BattleOn` of the popped step |
| Game.GameManager.ResolveAction | main.py:503-528 | the roster's new standing, the outcome and the unused draws are `RunSteps` of the schedule of the old list; the list left is what the steps taken leave; with `ScheduleUsesAll` and `RunFrame` every action is used once and a character in no step keeps its standing; the list is empty when all resolve; the invariant is kept |

## Left out

- Terminal input and output are not modelled: `user_turn`, `main`, the
  `input()` retry loops, `print` and `time.sleep`. The player's choices
  (acting character, skill number, target, clash or one-sided) become
  parameters of `Game.GameManager.Declare`.
- Game.GameManager.Declare: the retry loops' checks are dropped, so it accepts
  more than the game lets a player declare. It needs only slots in range, a
  non-objective attacker and a skill number of the attacker. It does not
  require a living attacker (main.py:456), an unstaggered one (main.py:458),
  a living target (main.py:188), or a skill number from the first two slots
  of the skill cycle (main.py:175).
- Rendering (`__repr__`, `basic_info`) is not modelled.
- `numbers_to_characters` is not modelled: it is a constant roster table.
- `check_game_end` is not modelled: nothing calls it.
- Randomness is injected. `set_speed` becomes a speed roll given to
  `Characters.Character.NextTurn`. `coin_toss` consumes a draw.
  `assign_skillcycle`'s shuffle is not modelled, and the skill cycle is kept
  only as given data.
- `sys.exit()` on the objective's death is modelled as the
  `ObjectiveDestroyed` outcome.
- `OutOfDraws` has no counterpart in the source. It is the model's answer
  when the injected draws are too few. It also stands in for a clash that
  main.py never finishes. When both sides have sanity 50 or more, every coin
  lands on heads (main.py:89-91). Two skills with coins and the same full
  value then tie in every round, and the `continue` at main.py:305 repeats
  forever. Sanity only rises, by `10 + rounds` per won clash
  (main.py:307, main.py:314), so a long game can reach this state.
  `Combat.EqualHeadsNeverDecide` and `Combat.ClashTieNeverDecided` show
  that no sequence of draws in 0..99 decides such a clash.
- Floating-point multipliers are modelled only for 0.5, 1 and 2. These are
  the only values the game's roster uses, and they are modelled exactly as
  halves.
- `Skill`'s construction from a label string is not modelled: skills hold a
  parsed damage type, and parsing is `Skills.FromStr`.
- `Skills.FromStr`: `str.upper()` is modelled for ASCII letters only.
- Skills.UpperChar: only the ASCII letters a to z are mapped to capitals;
  other Unicode case mappings of `str.upper()` are not modelled.
- Skills.Upper: the same restriction to ASCII letters.
- `Game.GameManager.NextTurn`, `Declare`, `TakeNext`, `Play`, `ResolveNext`
  and `ResolveAction` require the game's invariant `Game.GameManager.Valid`,
  which the source never checks. The constructor establishes it, and every
  method keeps it. The invariant says:
  - the teams share no character (`Separate`);
  - names are unique except the two objectives' (`NamesOk`);
  - skills are non-negative (`SkillsOk`);
  - every character keeps its pool and timer invariant (`AllValid`);
  - every pending action is declared: a non-objective attacker of the roster
    against another character of the roster, with a valid skill
    (`Declared`);
  - the list holds at most one action per attacker name (`UniqueAtts`).
  The source's clash assertion that the defender's pending action belongs
  to the defender relies on this.
- `Combat.Clash` and `Combat.Battle` do not give a damage bound across both
  follow-up attacks. Their effect is stated through `Flips`, and the
  lemmas about `Flips` bound each attack separately.
- Resolution is stated on each character's standing: turn state, sanity and
  speed. The constant fields (names, stats, skills) cannot change.
