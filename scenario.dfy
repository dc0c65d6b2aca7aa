/**
  The world GameInitializer builds (the forest entrance with a goblin and a potion, the
  temple hall north of it with an undead warrior) and a few complete runs of the loop on it.
  The rooms are any two distinct Room objects.
*/
module Scenario {
  import opened Options
  import opened Commands
  import opened Rules
  import opened Turns

  const Forest: string := "森林入口"
  const Temple: string := "神殿大廳"
  const Goblin: string := "哥布林"
  const Warrior: string := "亡靈戰士"

  /** GameInitializer.init as a value: the hero with 100 hp and attack 15 stands in the forest. */
  function Seed(forest: Room, temple: Room): (w: World)
    requires forest != temple
    ensures WellFormed(w) && w.current == forest && w.rooms.Keys == {forest, temple}
  {
    World(
      PlayerState("勇者", 100, 15, 0, 0),
      map[
        forest := RoomState(Forest, "你站在茂密森林的邊緣", Some(MonsterState(Goblin, 30, 8)), true, map["north" := temple]),
        temple := RoomState(Temple, "光線從破碎的石窗灑落", Some(MonsterState(Warrior, 50, 12)), false, map["south" := forest])],
      forest)
  }

  /** How the lines of the runs below parse. */
  lemma ScenarioLines()
    ensures Parse("attack") == Some(Attack) && Parse("look") == Some(Look) && Parse("use potion") == Some(UsePotion)
    ensures Parse("move north") == Some(Move("north")) && Parse("move south") == Some(Move("south"))
    ensures Parse("move east") == Some(Move("east"))
    ensures Parse("flee") == None && Parse("fly") == None
  {
    assert "move north"[..5] == "move " && "move north"[5..] == "north";
    assert "move south"[..5] == "move " && "move south"[5..] == "south";
    assert "move east"[..5] == "move " && "move east"[5..] == "east";
  }

  /** The two exchanges with the goblin, one command at a time. */
  lemma GoblinFight(forest: Room, temple: Room)
    requires forest != temple
    ensures var w0 := Seed(forest, temple);
      var w1 := w0.(player := PlayerState("勇者", 92, 15, 0, 15),
                    rooms := w0.rooms[forest := w0.rooms[forest].(monster := Some(MonsterState(Goblin, 15, 8)))]);
      var w2 := w1.(player := PlayerState("勇者", 92, 15, 1, 30),
                    rooms := w1.rooms[forest := w1.rooms[forest].(monster := Some(MonsterState(Goblin, 0, 8)))]);
      && Step(w0, Attack) == (w1, [Hit(Goblin, 15), CounterAttack(Goblin, 8)])
      && Step(w1, Attack) == (w2, [Hit(Goblin, 15), Defeated(Goblin)])
  {
  }

  /**
    Two attacks on the goblin: the first leaves it at 15 hp and costs the hero 8 hp, the
    second kills it without a counter-attack and counts one kill.
  */
  lemma TwoAttacksKillTheGoblin(forest: Room, temple: Room)
    requires forest != temple
    ensures var o := Run(Seed(forest, temple), ["attack", "attack"]);
      && o.world.player == PlayerState("勇者", 92, 15, 1, 30)
      && o.world.rooms[forest].monster == Some(MonsterState(Goblin, 0, 8))
      && o.executed == [Attack, Attack]
      && o.events == [Status(Forest, 100), Hit(Goblin, 15), CounterAttack(Goblin, 8),
                      Status(Forest, 92), Hit(Goblin, 15), Defeated(Goblin),
                      Status(Forest, 92)]
      && o.ending == InputExhausted
  {
    var w0 := Seed(forest, temple);
    var w1 := w0.(player := PlayerState("勇者", 92, 15, 0, 15),
                  rooms := w0.rooms[forest := w0.rooms[forest].(monster := Some(MonsterState(Goblin, 15, 8)))]);
    ScenarioLines();
    GoblinFight(forest, temple);
    RunCommand(w1, "attack", [], Attack);
    RunCommand(w0, "attack", ["attack"], Attack);
    assert ["attack"] == ["attack"] + [];
    assert ["attack"] + ["attack"] == ["attack", "attack"];
  }

  /** The single steps of the walk: north to the temple, a look there, south again, and no way east. */
  lemma TempleSteps(forest: Room, temple: Room)
    requires forest != temple
    ensures var w0 := Seed(forest, temple); var w1 := w0.(current := temple);
      && Step(w0, Move("north")) == (w1, [Moved(Temple)])
      && Step(w1, Look) == (w1, [Surroundings("光線從破碎的石窗灑落", {"south"}, false, Some(Warrior))])
      && Step(w1, Move("south")) == (w0, [Moved(Forest)])
      && Step(w0, Move("east")) == (w0, [NoPath])
  {
    var w1 := Seed(forest, temple).(current := temple);
    assert w1.rooms[temple].exits.Keys == {"south"};
  }

  /**
    In the temple hall: looking reports its description, its one exit, no potion and the
    undead warrior; walking south returns to the forest, where east leads nowhere.
  */
  lemma LookAndWalkBack(forest: Room, temple: Room)
    requires forest != temple
    ensures var w0 := Seed(forest, temple);
      Run(w0.(current := temple), ["look", "move south", "move east"]) ==
        Outcome(w0, [Look, Move("south"), Move("east")],
                [Status(Temple, 100), Surroundings("光線從破碎的石窗灑落", {"south"}, false, Some(Warrior)),
                 Status(Temple, 100), Moved(Forest),
                 Status(Forest, 100), NoPath,
                 Status(Forest, 100)],
                InputExhausted)
  {
    var w0 := Seed(forest, temple);
    var w1 := w0.(current := temple);
    ScenarioLines();
    TempleSteps(forest, temple);
    RunCommand(w0, "move east", [], Move("east"));
    RunCommand(w1, "move south", ["move east"], Move("south"));
    RunCommand(w1, "look", ["move south", "move east"], Look);
    assert ["move east"] == ["move east"] + [];
    assert ["move south"] + ["move east"] == ["move south", "move east"];
    assert ["look"] + ["move south", "move east"] == ["look", "move south", "move east"];
  }

  /** Walking north and back, with a look and a blocked way on the route: the world ends as it began. */
  lemma WalkNorthAndBack(forest: Room, temple: Room)
    requires forest != temple
    ensures var o := Run(Seed(forest, temple), ["move north", "look", "move south", "move east"]);
      && o.world == Seed(forest, temple)
      && o.events == [Status(Forest, 100), Moved(Temple),
                      Status(Temple, 100), Surroundings("光線從破碎的石窗灑落", {"south"}, false, Some(Warrior)),
                      Status(Temple, 100), Moved(Forest),
                      Status(Forest, 100), NoPath,
                      Status(Forest, 100)]
      && o.ending == InputExhausted
  {
    var w0 := Seed(forest, temple);
    LookAndWalkBack(forest, temple);
    ScenarioLines();
    TempleSteps(forest, temple);
    RunCommand(w0, "move north", ["look", "move south", "move east"], Move("north"));
    assert ["move north"] + ["look", "move south", "move east"] == ["move north", "look", "move south", "move east"];
  }

  /** The forest's potion is used once: the second try reports that there is none and changes nothing. */
  lemma PotionTwice(forest: Room, temple: Room)
    requires forest != temple
    ensures var o := Run(Seed(forest, temple), ["use potion", "use potion"]);
      && o.world.player == PlayerState("勇者", 100, 15, 0, -30)
      && !o.world.rooms[forest].hasPotion
      && o.events == [Status(Forest, 100), Healed(30), Status(Forest, 100), NoPotion, Status(Forest, 100)]
      && o.ending == InputExhausted
  {
    var w0 := Seed(forest, temple);
    var w1 := w0.(player := PlayerState("勇者", 100, 15, 0, -30),
                  rooms := w0.rooms[forest := w0.rooms[forest].(hasPotion := false)]);
    ScenarioLines();
    assert Step(w0, UsePotion) == (w1, [Healed(30)]);
    assert Step(w1, UsePotion) == (w1, [NoPotion]);
    RunCommand(w1, "use potion", [], UsePotion);
    RunCommand(w0, "use potion", ["use potion"], UsePotion);
    assert ["use potion"] == ["use potion"] + [];
    assert ["use potion"] + ["use potion"] == ["use potion", "use potion"];
  }

  /** A line that is no command ends the game at once, before any later line is read. */
  lemma UnknownLineEndsTheGame(forest: Room, temple: Room)
    requires forest != temple
    ensures Run(Seed(forest, temple), ["fly", "attack"]) ==
      Outcome(Seed(forest, temple), [], [Status(Forest, 100), GameOver], Unrecognized)
  {
    ScenarioLines();
  }
}
