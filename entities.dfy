/**
  The world entities: the player, monsters and rooms, as objects whose fields the
  command executors update in place. Fields the source never reassigns after
  construction are `const`.
*/
module Entities {

  /** Player, declared both in Main.java and in Player.java with identical bodies. */
  class Player {
    const name: string
    var hp: int
    const attack: int
    var killCount: int
    var totalDamage: int

    constructor (name: string, hp: int, attack: int)
      ensures this.name == name && this.hp == hp && this.attack == attack
      ensures killCount == 0 && totalDamage == 0
    {
      this.name := name;
      this.hp := hp;
      this.attack := attack;
      killCount := 0;
      totalDamage := 0;
    }

    predicate IsAlive()
      reads this
      ensures IsAlive() <==> hp > 0
    {
      hp > 0
    }

    method TakeDamage(dmg: int)
      modifies this
      ensures hp == old(hp) - dmg
      ensures killCount == old(killCount) && totalDamage == old(totalDamage)
    {
      hp := hp - dmg;
    }

    method AddKill()
      modifies this
      ensures killCount == old(killCount) + 1
      ensures hp == old(hp) && totalDamage == old(totalDamage)
    {
      killCount := killCount + 1;
    }

    /** A negative amount lowers the total: this is how a potion "heals". */
    method AddDamage(dmg: int)
      modifies this
      ensures totalDamage == old(totalDamage) + dmg
      ensures hp == old(hp) && killCount == old(killCount)
    {
      totalDamage := totalDamage + dmg;
    }
  }

  class Monster {
    const name: string
    var hp: int
    const attack: int

    constructor (name: string, hp: int, attack: int)
      ensures this.name == name && this.hp == hp && this.attack == attack
    {
      this.name := name;
      this.hp := hp;
      this.attack := attack;
    }

    predicate IsAlive()
      reads this
      ensures IsAlive() <==> hp > 0
    {
      hp > 0
    }

    method TakeDamage(damage: int)
      modifies this
      ensures hp == old(hp) - damage
    {
      hp := hp - damage;
    }
  }

  /**
    A room holds at most one monster, fixed at creation (null when there is none),
    a one-shot potion flag and its exits, a map from direction label to room.
  */
  class Room {
    const name: string
    const description: string
    const monster: Monster?
    var hasPotion: bool
    var exits: map<string, Room>

    constructor (name: string, description: string, monster: Monster?, hasPotion: bool)
      ensures this.name == name && this.description == description
      ensures this.monster == monster && this.hasPotion == hasPotion
      ensures exits == map[]
    {
      this.name := name;
      this.description := description;
      this.monster := monster;
      this.hasPotion := hasPotion;
      exits := map[];
    }

    method RemovePotion()
      modifies this
      ensures !hasPotion && exits == old(exits)
    {
      hasPotion := false;
    }

    /** HashMap.put: a later exit with the same label replaces the earlier one. */
    method SetExit(direction: string, room: Room)
      modifies this
      ensures exits == old(exits)[direction := room]
      ensures GetExit(direction) == room
      ensures forall d :: d != direction ==> GetExit(d) == old(GetExit(d))
      ensures hasPotion == old(hasPotion)
    {
      exits := exits[direction := room];
    }

    /** HashMap.get: null for a label with no exit. */
    function GetExit(direction: string): (next: Room?)
      reads this
      ensures next != null <==> direction in exits
      ensures next != null ==> next == exits[direction]
    {
      if direction in exits then exits[direction] else null
    }

    /** The labels getExitString joins; their order is left out. */
    function ExitLabels(): (labels: set<string>)
      reads this
      ensures forall d :: d in labels <==> GetExit(d) != null
    {
      exits.Keys
    }
  }
}
