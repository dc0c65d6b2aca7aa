/**
  The game on objects: the context (the player and the current room), the command
  executors that update the entities in place, and the engine's loop. Each executor is
  proved against the value-level rules: after it runs, the abstract world is exactly
  what Rules.Step computes from the world before.
*/
module Game {
  import opened Options
  import opened Commands
  import opened Entities
  import Rules
  import Turns

  function PlayerView(p: Player): Rules.PlayerState
    reads p
  {
    Rules.PlayerState(p.name, p.hp, p.attack, p.killCount, p.totalDamage)
  }

  function MonsterView(m: Monster?): Option<Rules.MonsterState>
    reads m
  {
    if m == null then None else Some(Rules.MonsterState(m.name, m.hp, m.attack))
  }

  function RoomView(r: Room): Rules.RoomState
    reads r, r.monster
  {
    Rules.RoomState(r.name, r.description, MonsterView(r.monster), r.hasPotion, r.exits)
  }

  /** GameContext: the single player and a movable reference to the current room. */
  class GameContext {
    const player: Player
    var currentRoom: Room
    /** Every room of the world; the source builds them once and never adds or drops one. */
    ghost const rooms: set<Room>

    constructor (player: Player, startRoom: Room, ghost rooms: set<Room>)
      ensures this.player == player && currentRoom == startRoom && this.rooms == rooms
    {
      this.player := player;
      currentRoom := startRoom;
      this.rooms := rooms;
    }

    /** The monsters of the world's rooms (null for a room without one). */
    ghost function Monsters(): set<Monster?> {
      set r | r in rooms :: r.monster
    }

    /**
      The world is closed and its monsters are owned: the current room and every exit
      target are rooms of the world, and no monster stands in two rooms.
    */
    ghost predicate Valid()
      reads this, rooms
    {
      && currentRoom in rooms
      && (forall r, d :: r in rooms && d in r.exits ==> r.exits[d] in rooms)
      && (forall r, s :: r in rooms && s in rooms && r != s && r.monster != null ==> r.monster != s.monster)
    }

    /** The current room's monster is one of the world's monsters, so the loop may change it. */
    lemma CurrentMonsterOwned()
      requires Valid()
      ensures currentRoom.monster in Monsters()
    {
    }

    /** The world these objects stand for. */
    ghost function Abs(): (w: Rules.World)
      reads this, player, rooms, Monsters()
      ensures Valid() ==> Rules.WellFormed(w)
    {
      Rules.World(PlayerView(player), map r | r in rooms :: RoomView(r), currentRoom)
    }

    method SetCurrentRoom(room: Room)
      modifies this
      ensures currentRoom == room
    {
      currentRoom := room;
    }
  }

  /**
    MoveCommand.execute: follow the exit with this label, or report that there is no way.
    On the context's own player in a valid world, this is Rules.MoveStep.
  */
  method MoveExecute(direction: string, p: Player, c: GameContext) returns (events: seq<Rules.Event>)
    modifies c
    ensures c.currentRoom == old(if direction in c.currentRoom.exits then c.currentRoom.exits[direction] else c.currentRoom)
    ensures events == old(if direction in c.currentRoom.exits then [Rules.Moved(c.currentRoom.exits[direction].name)] else [Rules.NoPath])
    ensures old(c.Valid()) ==> c.Valid() && (c.Abs(), events) == Rules.MoveStep(old(c.Abs()), direction)
  {
    ghost var w := c.Abs();
    var nextRoom := c.currentRoom.GetExit(direction);
    if nextRoom != null {
      c.SetCurrentRoom(nextRoom);
      events := [Rules.Moved(nextRoom.name)];
    } else {
      events := [Rules.NoPath];
    }
    assert c.Abs() == w.(current := c.currentRoom);
  }

  /**
    AttackCommand.execute: one Fight between the player and the current room's monster.
    On the context's own player in a valid world, this is Rules.AttackStep.
  */
  method AttackExecute(p: Player, c: GameContext) returns (events: seq<Rules.Event>)
    modifies p, c.currentRoom.monster
    ensures var f := Rules.Fight(old(PlayerView(p)), old(MonsterView(c.currentRoom.monster)));
      PlayerView(p) == f.0 && MonsterView(c.currentRoom.monster) == f.1 && events == f.2
    ensures old(c.Valid()) && p == c.player ==> c.Valid() && (c.Abs(), events) == Rules.AttackStep(old(c.Abs()))
  {
    var m := c.currentRoom.monster;
    if m != null && m.IsAlive() {
      m.TakeDamage(p.attack);
      p.AddDamage(p.attack);
      events := [Rules.Hit(m.name, p.attack)];
      if !m.IsAlive() {
        events := events + [Rules.Defeated(m.name)];
        p.AddKill();
      } else {
        p.TakeDamage(m.attack);
        events := events + [Rules.CounterAttack(m.name, m.attack)];
      }
    } else {
      events := [Rules.NoMonster];
    }
    if old(c.Valid()) && p == c.player {
      LocalChange(c);
    }
  }

  /**
    When only the player, the current room and its monster may have changed, and the
    current room's exits have not, the world has changed only in its player and in the
    current room, and it is still valid.
  */
  twostate lemma LocalChange(c: GameContext)
    requires old(c.Valid())
    requires unchanged(c) && c.currentRoom.exits == old(c.currentRoom.exits)
    requires forall r :: r in c.rooms && r != c.currentRoom ==> unchanged(r) && (r.monster == null || unchanged(r.monster))
    ensures c.Valid()
    ensures c.Abs() == old(c.Abs()).(player := PlayerView(c.player), rooms := old(c.Abs()).rooms[c.currentRoom := RoomView(c.currentRoom)])
  {
    forall r | r in c.rooms && r != c.currentRoom
      ensures RoomView(r) == old(RoomView(r))
    {
    }
  }

  /**
    UsePotionCommand.execute: use up the room's potion, lowering totalDamage; hp stays as it is.
    On the context's own player in a valid world, this is Rules.UsePotionStep.
  */
  method UsePotionExecute(p: Player, c: GameContext) returns (events: seq<Rules.Event>)
    modifies p, c.currentRoom
    ensures !c.currentRoom.hasPotion && c.currentRoom.exits == old(c.currentRoom.exits)
    ensures PlayerView(p) == old(PlayerView(p).(totalDamage :=
      p.totalDamage - if c.currentRoom.hasPotion then Rules.PotionHeal else 0))
    ensures events == old(if c.currentRoom.hasPotion then [Rules.Healed(Rules.PotionHeal)] else [Rules.NoPotion])
    ensures old(c.Valid()) && p == c.player ==> c.Valid() && (c.Abs(), events) == Rules.UsePotionStep(old(c.Abs()))
  {
    var r := c.currentRoom;
    if r.hasPotion {
      p.AddDamage(-Rules.PotionHeal);
      r.RemovePotion();
      events := [Rules.Healed(Rules.PotionHeal)];
    } else {
      events := [Rules.NoPotion];
    }
    if old(c.Valid()) && p == c.player {
      LocalChange(c);
    }
  }

  /** LookCommand.execute: report the room; nothing changes. In a valid world, this is Rules.LookStep. */
  method LookExecute(p: Player, c: GameContext) returns (events: seq<Rules.Event>)
    ensures |events| == 1 && events[0].Surroundings?
    ensures events[0].description == c.currentRoom.description
    ensures forall d :: d in events[0].exits <==> c.currentRoom.GetExit(d) != null
    ensures events[0].potion <==> c.currentRoom.hasPotion
    ensures events[0].blocker.Some? <==> c.currentRoom.monster != null && c.currentRoom.monster.IsAlive()
    ensures events[0].blocker.Some? ==> events[0].blocker.value == c.currentRoom.monster.name
    ensures c.Valid() ==> events == [Rules.LookStep(c.Abs())]
  {
    var room := c.currentRoom;
    var blocker := None;
    if room.monster != null && room.monster.IsAlive() {
      blocker := Some(room.monster.name);
    }
    events := [Rules.Surroundings(room.description, room.ExitLabels(), room.hasPotion, blocker)];
    assert events[0].exits == room.exits.Keys;
  }

  /** SkillCommand.execute: an empty stub; nothing changes and nothing is reported. */
  method SkillExecute(name: string, p: Player, c: GameContext) returns (events: seq<Rules.Event>)
    ensures events == []
  {
    events := [];
  }

  /**
    command.execute(context.getPlayer(), context): the executor of the command's kind,
    on the context's own player. The new world is exactly Rules.Step of the old one.
  */
  method Execute(command: Command, c: GameContext) returns (events: seq<Rules.Event>)
    requires c.Valid()
    modifies c, c.player, c.currentRoom, c.currentRoom.monster
    ensures c.Valid()
    ensures (c.Abs(), events) == Rules.Step(old(c.Abs()), command)
  {
    match command
    case Move(d) =>
      events := MoveExecute(d, c.player, c);
    case Attack =>
      events := AttackExecute(c.player, c);
    case UsePotion =>
      events := UsePotionExecute(c.player, c);
    case Look =>
      events := LookExecute(c.player, c);
      assert c.Abs() == old(c.Abs());
    case Skill(n) =>
      events := SkillExecute(n, c.player, c);
      assert c.Abs() == old(c.Abs());
  }

  /** GameEngine: the turn loop over a context; the console's lines arrive as a sequence. */
  class GameEngine {
    const context: GameContext

    constructor (context: GameContext)
      ensures this.context == context
    {
      this.context := context;
    }

    /**
      One line of the loop: parse it and, when it is a command, run it on the context's
      player. The world afterwards is Rules.Step of the world before, or unchanged.
    */
    method Play(input: string) returns (reported: seq<Rules.Event>, recognised: bool)
      requires context.Valid()
      modifies context, context.player, context.rooms, context.Monsters()
      ensures context.Valid()
      ensures recognised <==> Parse(input).Some?
      ensures recognised ==> (context.Abs(), reported) == Rules.Step(old(context.Abs()), Parse(input).value)
      ensures !recognised ==> context.Abs() == old(context.Abs()) && reported == []
    {
      var command := Parse(input);
      if command.None? {
        return [], false;
      }
      context.CurrentMonsterOwned();
      reported := Execute(command.value, context);
      recognised := true;
    }

    /**
      GameEngine.start: while the player is alive, report the status, read a line and
      run its command; stop at the first line that is no command. The world it leaves and
      the transcript it reports are exactly those of Turns.Run.
    */
    method Start(inputs: seq<string>) returns (events: seq<Rules.Event>)
      requires context.Valid()
      modifies context, context.player, context.rooms, context.Monsters()
      ensures context.Valid()
      ensures var o := Turns.Run(old(context.Abs()), inputs); context.Abs() == o.world && events == o.events
    {
      ghost var w0 := context.Abs();
      var i := 0;
      events := [];
      while context.player.IsAlive()
        invariant 0 <= i <= |inputs|
        invariant context.Valid()
        invariant Turns.Run(w0, inputs).world == Turns.Run(context.Abs(), inputs[i..]).world
        invariant Turns.Run(w0, inputs).events == events + Turns.Run(context.Abs(), inputs[i..]).events
        decreases |inputs| - i
      {
        ghost var w := context.Abs();
        Turns.RunAt(w, inputs, i, events);
        var status := Rules.Status(context.currentRoom.name, context.player.hp);
        assert status == Rules.Status(Rules.Here(w).name, w.player.hp);
        events := events + [status];
        if i == |inputs| {
          return;
        }
        var input := inputs[i];
        i := i + 1;
        var reported, recognised := Play(input);
        if !recognised {
          break;
        }
        events := events + reported;
      }
      Turns.RunAt(context.Abs(), inputs, i, events);
      events := events + [Rules.GameOver];
    }
  }
}
