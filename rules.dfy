/**
  The game rules on values: a snapshot of the whole world (player, every room with its
  monster and potion, the current room) and what one command does to it. Rooms are
  identified by their Room objects; nothing here reads the heap.
*/
module Rules {
  import opened Options
  import opened Commands
  import Entities

  type Room = Entities.Room

  datatype PlayerState = PlayerState(name: string, hp: int, attack: int, killCount: int, totalDamage: int)
  datatype MonsterState = MonsterState(name: string, hp: int, attack: int)
  datatype RoomState = RoomState(
    name: string,
    description: string,
    monster: Option<MonsterState>,
    hasPotion: bool,
    exits: map<string, Room>)
  datatype World = World(player: PlayerState, rooms: map<Room, RoomState>, current: Room)

  /** What the game prints, as tags; the message texts are not modelled. */
  datatype Event =
    | Status(room: string, hp: int)
    | Moved(room: string)
    | NoPath
    | Hit(target: string, damage: int)
    | Defeated(target: string)
    | CounterAttack(attacker: string, damage: int)
    | NoMonster
    | Healed(amount: int)
    | NoPotion
    | Surroundings(description: string, exits: set<string>, potion: bool, blocker: Option<string>)
    | GameOver

  /** The fixed amount a potion "heals" (UsePotionCommand). */
  const PotionHeal: int := 30

  /** A monster is present and alive (Monster.isAlive on a non-null monster). */
  predicate Lives(m: Option<MonsterState>) {
    m.Some? && m.value.hp > 0
  }

  /** The current room is a room of the world and every exit leads to a room of the world. */
  predicate WellFormed(w: World) {
    && w.current in w.rooms
    && forall r, d :: r in w.rooms && d in w.rooms[r].exits ==> w.rooms[r].exits[d] in w.rooms
  }

  function Here(w: World): RoomState
    requires w.current in w.rooms
  {
    w.rooms[w.current]
  }

  /** The rooms whose monster is still alive. */
  ghost function Living(w: World): set<Room> {
    set r | r in w.rooms && Lives(w.rooms[r].monster)
  }

  /** The rooms that still hold a potion. */
  ghost function Potions(w: World): set<Room> {
    set r | r in w.rooms && w.rooms[r].hasPotion
  }

  /**
    One exchange of AttackCommand: the player hits a living monster for exactly its attack;
    a monster this blow kills is counted once and does not strike back; a survivor strikes
    back for exactly its attack. An absent or dead monster is left alone.
  */
  function Fight(p: PlayerState, m: Option<MonsterState>): (r: (PlayerState, Option<MonsterState>, seq<Event>))
    ensures r.0.name == p.name && r.0.attack == p.attack
    ensures !Lives(m) ==> r == (p, m, [NoMonster])
    ensures Lives(m) ==> r.1 == Some(m.value.(hp := m.value.hp - p.attack))
    ensures r.0.totalDamage == p.totalDamage + (if Lives(m) then p.attack else 0)
    ensures r.0.killCount == p.killCount + (if Lives(m) && !Lives(r.1) then 1 else 0)
    ensures r.0.hp == p.hp - (if Lives(r.1) then r.1.value.attack else 0)
    ensures Lives(m) ==>
      r.2 == [Hit(m.value.name, p.attack)] +
             (if Lives(r.1) then [CounterAttack(m.value.name, m.value.attack)] else [Defeated(m.value.name)])
  {
    if Lives(m) then
      var hit := m.value.(hp := m.value.hp - p.attack);
      var dealt := p.(totalDamage := p.totalDamage + p.attack);
      if hit.hp <= 0 then
        (dealt.(killCount := dealt.killCount + 1), Some(hit), [Hit(hit.name, p.attack), Defeated(hit.name)])
      else
        (dealt.(hp := dealt.hp - hit.attack), Some(hit), [Hit(hit.name, p.attack), CounterAttack(hit.name, hit.attack)])
    else
      (p, m, [NoMonster])
  }

  /** MoveCommand: follow the exit with this label, or stay when there is none. */
  function MoveStep(w: World, direction: string): (r: (World, seq<Event>))
    requires WellFormed(w)
    ensures WellFormed(r.0)
    ensures r.0.player == w.player && r.0.rooms == w.rooms
    ensures direction in Here(w).exits ==>
      r.0.current == Here(w).exits[direction] && r.1 == [Moved(Here(r.0).name)]
    ensures direction !in Here(w).exits ==> r.0 == w && r.1 == [NoPath]
  {
    var exits := Here(w).exits;
    if direction in exits then
      var next := exits[direction];
      (w.(current := next), [Moved(w.rooms[next].name)])
    else
      (w, [NoPath])
  }

  /** AttackCommand: a Fight against the current room's monster; no other room changes. */
  function AttackStep(w: World): (r: (World, seq<Event>))
    requires WellFormed(w)
    ensures WellFormed(r.0) && r.0.current == w.current && r.0.rooms.Keys == w.rooms.Keys
    ensures forall x :: x in w.rooms && x != w.current ==> r.0.rooms[x] == w.rooms[x]
    ensures var f := Fight(w.player, Here(w).monster);
      r.0.player == f.0 && Here(r.0) == Here(w).(monster := f.1) && r.1 == f.2
  {
    var here := Here(w);
    var f := Fight(w.player, here.monster);
    (w.(player := f.0, rooms := w.rooms[w.current := here.(monster := f.1)]), f.2)
  }

  /**
    UsePotionCommand: a potion here is used up for good and lowers totalDamage by
    PotionHeal; hp is left as it was. Without a potion nothing changes.
  */
  function UsePotionStep(w: World): (r: (World, seq<Event>))
    requires WellFormed(w)
    ensures WellFormed(r.0) && r.0.current == w.current && r.0.rooms.Keys == w.rooms.Keys
    ensures !Here(r.0).hasPotion && Here(r.0) == Here(w).(hasPotion := false)
    ensures forall x :: x in w.rooms && x != w.current ==> r.0.rooms[x] == w.rooms[x]
    ensures r.0.player == w.player.(totalDamage := w.player.totalDamage - (if Here(w).hasPotion then PotionHeal else 0))
    ensures r.1 == if Here(w).hasPotion then [Healed(PotionHeal)] else [NoPotion]
  {
    var here := Here(w);
    if here.hasPotion then
      var p := w.player.(totalDamage := w.player.totalDamage - PotionHeal);
      (w.(player := p, rooms := w.rooms[w.current := here.(hasPotion := false)]), [Healed(PotionHeal)])
    else
      (w, [NoPotion])
  }

  /** LookCommand's report: description, exit labels, the potion note and the note of a living monster. */
  function LookStep(w: World): (e: Event)
    requires WellFormed(w)
    ensures e.Surroundings? && e.description == Here(w).description
    ensures forall d :: d in e.exits <==> d in Here(w).exits
    ensures e.potion <==> Here(w).hasPotion
    ensures e.blocker.Some? <==> Lives(Here(w).monster)
    ensures e.blocker.Some? ==> e.blocker.value == Here(w).monster.value.name
  {
    var here := Here(w);
    Surroundings(here.description, here.exits.Keys, here.hasPotion,
                 if Lives(here.monster) then Some(here.monster.value.name) else None)
  }

  /**
    Command.execute on the world: what one recognised command does. Whatever the command,
    the rooms and their exits stay as they are, the player's attack stays as it is, only
    Move changes the current room and only Attack changes hp or killCount.
  */
  function Step(w: World, c: Command): (r: (World, seq<Event>))
    requires WellFormed(w)
    ensures WellFormed(r.0)
    ensures r.0.rooms.Keys == w.rooms.Keys
    ensures forall x :: x in w.rooms ==> r.0.rooms[x].exits == w.rooms[x].exits
    ensures r.0.player.name == w.player.name && r.0.player.attack == w.player.attack
    ensures !c.Move? ==> r.0.current == w.current
    ensures !c.Attack? ==> r.0.player.hp == w.player.hp && r.0.player.killCount == w.player.killCount
    ensures c.Look? || c.Skill? ==> r.0 == w
  {
    match c
    case Move(d) => MoveStep(w, d)
    case Attack => AttackStep(w)
    case UsePotion => UsePotionStep(w)
    case Look => (w, [LookStep(w)])
    case Skill(_) => (w, [])
  }

  /**
    Kills are counted exactly once per monster: every step keeps killCount plus the number
    of living monsters constant, and no monster comes back to life.
  */
  lemma StepKillAccounting(w: World, c: Command)
    requires WellFormed(w)
    ensures Living(Step(w, c).0) <= Living(w)
    ensures Step(w, c).0.player.killCount + |Living(Step(w, c).0)| == w.player.killCount + |Living(w)|
  {
    if c.Attack? {
      AttackKillAccounting(w);
    } else if c.UsePotion? {
      assert Living(Step(w, c).0) == Living(w);
    }
  }

  /** An attack counts a kill exactly when it leaves the current room's living monster dead. */
  lemma AttackKillAccounting(w: World)
    requires WellFormed(w)
    ensures Living(AttackStep(w).0) <= Living(w)
    ensures AttackStep(w).0.player.killCount + |Living(AttackStep(w).0)| == w.player.killCount + |Living(w)|
  {
    var w' := AttackStep(w).0;
    var f := Fight(w.player, Here(w).monster);
    if Lives(Here(w).monster) && !Lives(f.1) {
      assert Living(w') == Living(w) - {w.current};
    } else {
      assert Living(w') == Living(w);
    }
  }

  /** A potion is used at most once: only UsePotion removes one, only from the current room, and none reappears. */
  lemma StepPotions(w: World, c: Command)
    requires WellFormed(w)
    ensures Potions(Step(w, c).0) == Potions(w) - (if c.UsePotion? then {w.current} else {})
  {
    var w' := Step(w, c).0;
    if c.Attack? {
      assert Potions(w') == Potions(w);
    } else if c.UsePotion? {
      assert Potions(w') == Potions(w) - {w.current};
    }
  }

  /** A second UsePotion in the same room changes nothing and reports that there is no potion. */
  lemma PotionOneShot(w: World)
    requires WellFormed(w)
    ensures var w1 := Step(w, UsePotion).0; Step(w1, UsePotion) == (w1, [NoPotion])
  {
  }

  /** Attacking again after a kill changes nothing: a dead monster is never hit or counted twice. */
  lemma NoSecondKill(w: World)
    requires WellFormed(w)
    requires var w1 := Step(w, Attack).0; !Lives(Here(w1).monster)
    ensures var w1 := Step(w, Attack).0; Step(w1, Attack) == (w1, [NoMonster])
  {
    var w1 := Step(w, Attack).0;
    assert w1.rooms[w1.current := Here(w1)] == w1.rooms;
  }

  /** A step either stays in the current room or goes through one of its exits. */
  lemma StepFollowsExit(w: World, c: Command)
    requires WellFormed(w)
    ensures Step(w, c).0.current == w.current || Step(w, c).0.current in Here(w).exits.Values
  {
    if c.Move? && c.direction in Here(w).exits {
      assert Step(w, c).0.current == Here(w).exits[c.direction];
    }
  }
}
