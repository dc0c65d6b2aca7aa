# rpg_single_player in Dafny

A model of the single-player text adventure: a hero walks between rooms, fights the
monster standing in a room, drinks the room's potion and looks around, one typed line per
turn, until the hero dies or types a line that is no command.

The model has two layers.

- **Objects, as the program has them** (`entities.dfy`, `game.dfy`): `Player`, `Monster`,
  `Room`, `GameContext` and `GameEngine` are classes. Their mutators (`TakeDamage`,
  `AddKill`, `AddDamage`, `RemovePotion`, `SetExit`, `SetCurrentRoom`) update fields in place.
  The five command executors are methods that change exactly those objects, and
  `GameEngine.Start` is the `while` loop of the source. The loop reads its lines from a
  sequence of strings instead of the console.
- **Values, as the rules of the game** (`rules.dfy`, `turns.dfy`): a `World` holds the player,
  every room's state keyed by its `Room` object, and the current room.
  - `Rules.Step` is what one command does to a world.
  - `Turns.Run` is the whole loop over a list of input lines: which commands it ran, what it
    reported, and why it stopped.

The executors and the loop are proved against the value layer. Each executor's
postcondition says the abstract world after it is exactly `Rules.Step` of the world
before. `Start` ends in exactly the world and transcript that `Turns.Run` computes. So the
lemmas about `Step` and `Run` hold for the objects too: kills are counted once, potions
are one-shot, and the hero only moves along exits.

What the program prints is modelled as `Rules.Event` tags, such as `Status(room, hp)`,
`Hit(monster, damage)` and `GameOver`. The Chinese message texts are not part of the model.

Two behaviours are kept as the code has them:

- **The potion lowers the damage total, not hp.** `UsePotionCommand` subtracts 30 from the
  player's cumulative `totalDamage` and leaves hp as it was, although its message says
  30 hp were restored (Main.java:185-188).
- **The closing message is printed on every way out of the loop.** This includes the break at
  an unrecognised line (Main.java:44-51), so the death message is shown to a living hero
  too (`Turns.RunCloses`).

End of input is not a case the program handles. `Scanner.nextLine` throws when no line is
left. The model ends the run there with the ending `InputExhausted`: the status line of
that turn is reported and the closing message is not.

`GameContext` carries one addition that the program does not have: a ghost set `rooms` of
every room in the world, so that the abstract world can be read off the objects. Its
invariant `Valid()` has three parts:

- the current room is one of `rooms`;
- every exit leads into `rooms`;
- no monster stands in two rooms.

## Model

| member | source | states |
|---|---|---|
| Commands.Parse | rpg_single_player/Main.java:136-144 | "attack", "look" and "use potion" are recognised only on exact equality. A line starting with "move " is Move with the verbatim rest after 5 characters. A line starting with "skill " is Skill with the rest after 6 characters. Every other line gives no command (both directions of each case). |
| Commands.PrefixesDisjoint | rpg_single_player/Main.java:138-142 | No line starts with both "move " and "skill ", so testing "move " first decides nothing between them. |
| Commands.KeywordsHaveNoPrefix | rpg_single_player/Main.java:138-142 | The three exact keywords start with neither prefix, so the order of the tests in parse does not matter. |
| Commands.ParseUnparse | rpg_single_player/Main.java:136-144 | Every command has a line that parses back to exactly it. |
| Commands.UnparseParse | rpg_single_player/Main.java:136-144 | A line that parses to a command is that command's canonical line: parse loses nothing. |
| Entities.Player.constructor | rpg_single_player/Player.java:5-12 | Name, hp and attack are the arguments, and killCount and totalDamage start at 0. Main.java:73-80 declares the same Player. |
| Entities.Player.IsAlive | rpg_single_player/Player.java:14 | The player is alive exactly when hp > 0. |
| Entities.Player.TakeDamage | rpg_single_player/Player.java:15 | hp drops by exactly the signed amount. killCount and totalDamage are unchanged, and attack is constant. |
| Entities.Player.AddKill | rpg_single_player/Player.java:18 | killCount grows by exactly 1, and hp and totalDamage are unchanged. |
| Entities.Player.AddDamage | rpg_single_player/Player.java:19 | totalDamage changes by the signed amount, so a negative amount lowers it. hp and killCount are unchanged. |
| Entities.Monster.constructor | rpg_single_player/Main.java:119-123 | Name, hp and attack are the arguments. |
| Entities.Monster.IsAlive | rpg_single_player/Main.java:126 | The monster is alive exactly when hp > 0. |
| Entities.Monster.TakeDamage | rpg_single_player/Main.java:127 | hp drops by exactly the amount. |
| Entities.Room.constructor | rpg_single_player/Main.java:95-102 | The room holds the given name, description, monster and potion flag, and has no exits yet. |
| Entities.Room.RemovePotion | rpg_single_player/Main.java:108 | The potion flag is cleared and the exits are untouched. |
| Entities.Room.SetExit | rpg_single_player/Main.java:109 | After setExit(d, r), getExit(d) is r. Every other label's exit and the potion flag stay as they were. |
| Entities.Room.GetExit | rpg_single_player/Main.java:110 | Returns the exit's room exactly when the label has one, and null otherwise. |
| Entities.Room.ExitLabels | rpg_single_player/Main.java:111 | A label is listed exactly when getExit finds a room for it. |
| Rules.Fight | rpg_single_player/Main.java:215-238 | With no monster or a dead one, nothing changes and NoMonster is reported. Otherwise: the monster loses exactly the player's attack, totalDamage grows by it, a kill is counted exactly when the blow leaves the monster dead, and a monster killed by the blow does not strike back. A survivor takes exactly its attack off the player's hp. Name and attack never change. |
| Rules.MoveStep | rpg_single_player/Main.java:157-163 | With an exit for the label, the current room becomes exactly its target. Otherwise the world is unchanged and NoPath is reported. Player and rooms never change. |
| Rules.AttackStep | rpg_single_player/Main.java:213-240 | The player and the current room's monster become the Fight result. No other room changes and the player stays where they are. |
| Rules.UsePotionStep | rpg_single_player/Main.java:181-193 | A potion here is cleared and totalDamage drops by 30, with hp unchanged. Without one, nothing changes and NoPotion is reported. No other room changes. |
| Rules.LookStep | rpg_single_player/Main.java:196-210 | Reports the description, exactly the room's exit labels, the potion exactly when there is one, and the monster's name exactly when a living monster stands there. |
| Rules.Step | rpg_single_player/Main.java:132-134 | Any command keeps the rooms, their exits, and the player's name and attack. Only Move changes the current room, only Attack changes hp or killCount, and Look and Skill change nothing. |
| Rules.StepKillAccounting | rpg_single_player/Main.java:227-237 | No command brings a monster back. killCount plus the number of living monsters is the same before and after any command. |
| Rules.AttackKillAccounting | rpg_single_player/Main.java:217-237 | An attack counts one kill exactly when it kills the current room's monster, and otherwise none. |
| Rules.StepPotions | rpg_single_player/Main.java:185-191 | Only UsePotion removes a potion, only the current room's, and no potion ever reappears. |
| Rules.PotionOneShot | rpg_single_player/Main.java:185-191 | A second UsePotion in the same room changes nothing and reports that there is no potion. |
| Rules.NoSecondKill | rpg_single_player/Main.java:217-237 | Once the current room's monster is dead, attacking again changes nothing, so its death is counted only once. |
| Rules.StepFollowsExit | rpg_single_player/Main.java:157-159 | After any command the player is in the same room or in the target of one of its exits. |
| Turns.Replay | rpg_single_player/Main.java:36-50 | Running commands one after another keeps the set of rooms, every room's exits, and the player's name and attack. |
| Turns.Run | rpg_single_player/Main.java:35-52 | The loop over a finite input, with its helper Turn for the loop body, always ends in a well-formed world. What it runs and reports is stated by the Run lemmas below. |
| Turns.RunParsesLines | rpg_single_player/Main.java:41-45 | The commands the loop ran are, in order, what its first lines parse to. |
| Turns.RunEnds | rpg_single_player/Main.java:36-49 | The loop stops for death exactly when hp <= 0 at the end. It stops at an unrecognised line only after running every line before it. It stops for lack of input only after running every line. |
| Turns.RunCloses | rpg_single_player/Main.java:48-51 | The closing message is the last thing reported on every ending except running out of input, including the break at an unrecognised line. |
| Turns.RunReplays | rpg_single_player/Main.java:36-45 | The loop's world is the replay of the commands it ran. Each of them ran while the player was alive, so no command runs for a dead player. |
| Turns.RunAt | rpg_single_player/Main.java:36-49 | The loop at line i, in each case: a dead player, no line left, a line that is no command, and a command reported after the status line. |
| Turns.RunCommand | rpg_single_player/Main.java:41-45 | A recognised line read by a living player produces the status, the command's reports, and then the run on the remaining lines. |
| Turns.ReplayKillAccounting | rpg_single_player/Main.java:227-229 | Over any sequence of commands, no monster comes back. killCount grows by exactly the number of monsters that died. |
| Turns.KillsBounded | rpg_single_player/Main.java:227-229 | Over a whole game, killCount never decreases and grows by at most the number of monsters alive at the start. |
| Turns.ReplayPotions | rpg_single_player/Main.java:185-187 | Over any sequence of commands, potions only disappear. Without UsePotion they all remain. |
| Turns.ReplayFollowsExits | rpg_single_player/Main.java:157-159 | Wherever a sequence of commands leaves the player, that room is reachable along exits from where it started. |
| Game.GameContext.constructor | rpg_single_player/Main.java:17-20 | The context holds the given player and starts in the given room. |
| Game.GameContext.SetCurrentRoom | rpg_single_player/Main.java:24 | The current room becomes the given room. |
| Game.MoveExecute | rpg_single_player/Main.java:155-164 | The current room becomes the exit's target when there is one, and stays otherwise. Nothing but the context changes. For the context's player in a valid world, this is exactly Rules.MoveStep. |
| Game.AttackExecute | rpg_single_player/Main.java:214-239 | The player and the current room's monster change exactly as Rules.Fight says, and nothing else changes. For the context's player in a valid world, this is exactly Rules.AttackStep. |
| Game.UsePotionExecute | rpg_single_player/Main.java:182-192 | The room's potion is cleared and totalDamage drops by 30 when there was one. Nothing changes otherwise. For the context's player in a valid world, this is exactly Rules.UsePotionStep. |
| Game.LookExecute | rpg_single_player/Main.java:197-209 | Reports the description, exactly the exit labels, the potion and a living monster's name, and changes nothing. In a valid world this is Rules.LookStep. |
| Game.SkillExecute | rpg_single_player/Main.java:176-178 | Does nothing and reports nothing. |
| Game.Execute | rpg_single_player/Main.java:45 | command.execute on the context's player keeps the context valid and leaves exactly the world Rules.Step computes. |
| Game.GameEngine.constructor | rpg_single_player/Main.java:31-33 | The engine holds the given context. |
| Game.GameEngine.Play | rpg_single_player/Main.java:43-49 | A line is run exactly when it parses. The world then becomes Rules.Step of the world before. A line that does not parse changes nothing. |
| Game.GameEngine.Start | rpg_single_player/Main.java:35-52 | The loop leaves exactly the world and reports exactly the transcript of Turns.Run on its input lines. |
| Scenario.Seed | rpg_single_player/Main.java:56-66 | The initial world is well formed and starts in the forest. Its rooms are exactly the forest and the temple. |
| Scenario.TwoAttacksKillTheGoblin | rpg_single_player/Main.java:58-64 | On the initial world, two attacks leave the goblin at 15 hp and then dead. The hero ends with 92 hp, one kill and 30 damage dealt. |
| Scenario.LookAndWalkBack | rpg_single_player/Main.java:59-62 | In the temple: look reports its description, the single exit "south", no potion and the undead warrior. Walking south returns to the forest, where "move east" finds no way. |
| Scenario.WalkNorthAndBack | rpg_single_player/Main.java:61-62 | Walking north and back leaves the initial world unchanged, with every turn's report listed. |
| Scenario.PotionTwice | rpg_single_player/Main.java:181-193 | In the forest the first potion lowers totalDamage to -30 with hp unchanged. The second try reports that there is no potion. |
| Scenario.UnknownLineEndsTheGame | rpg_single_player/Main.java:43-51 | An unknown first line ends the game at once, with the closing message and the world untouched, before any later line is read. |

## Left out

- Console I/O: the status lines, the "> " prompt and every message are modelled as event tags, not as text. `Scanner` is replaced by the sequence of input lines given to `GameEngine.Start`.
- Running out of input: `Scanner.nextLine` throws an exception there, which the model does not raise. The run ends with the ending `InputExhausted` instead.
- Exit label order: `getExitString` joins the labels in `HashMap` iteration order, which is unspecified. `Entities.Room.ExitLabels` and the `Surroundings` event hold the labels as a set.
- The `Skill` interface (Main.java:167-170): it is never implemented or used.
- `Main.main` and `GameInitializer.init` as object construction: this is setup only. Its data appears as the value `Scenario.Seed`, on which the scenario lemmas run.
- Java `int` overflow: hp, attack, killCount and totalDamage are mathematical integers. The contracts of `Entities.Player.TakeDamage`, `Entities.Player.AddKill`, `Entities.Player.AddDamage` and `Entities.Monster.TakeDamage` do not model 32-bit wrap-around, which the game's small numbers never reach.
- The clash between the two identical declarations of `Player` (Main.java:69-88 and Player.java:1-20) is a build problem, not behaviour. `Player` is modelled once.
- Game.AttackExecute: the world-level postcondition (equal to `Rules.AttackStep`) is stated only when the player passed in is the context's own player, which is the only way the loop calls it. The object-level postcondition holds for any player.
- Game.UsePotionExecute: the world-level postcondition is stated only for the context's own player, as for `Game.AttackExecute`.
