/**
  The turn loop on values: GameEngine.start reads lines while the player is alive,
  stops at the first line that parses to no command, and runs every other line's
  command on the world.
*/
module Turns {
  import opened Options
  import opened Commands
  import opened Rules

  /** Why the loop stopped. */
  datatype Ending =
    | PlayerDead     // the loop test found hp <= 0
    | Unrecognized   // a line parsed to no command
    | InputExhausted // no line left to read

  /** The world after the loop, the commands it ran, everything it reported, and why it stopped. */
  datatype Outcome = Outcome(world: World, executed: seq<Command>, events: seq<Event>, ending: Ending)

  /**
    The world after running the commands one after another. Whatever they are, the rooms,
    their exits and the player's name and attack stay as they were.
  */
  function Replay(w: World, cmds: seq<Command>): (r: World)
    requires WellFormed(w)
    ensures WellFormed(r)
    ensures r.rooms.Keys == w.rooms.Keys
    ensures forall x :: x in w.rooms ==> r.rooms[x].exits == w.rooms[x].exits
    ensures r.player.name == w.player.name && r.player.attack == w.player.attack
    decreases |cmds|
  {
    if cmds == [] then w else Replay(Step(w, cmds[0]).0, cmds[1..])
  }

  /**
    GameEngine.start over a finite input. Each turn whose loop test passes reports the
    status line, then reads a line; the loop ends when the player is dead, at the first
    unrecognised line, or when no line is left (where Scanner.nextLine throws, so the
    closing message is not reported).
  */
  function Run(w: World, inputs: seq<string>): (o: Outcome)
    requires WellFormed(w)
    ensures WellFormed(o.world)
    decreases |inputs|, 1
  {
    if w.player.hp <= 0 then
      Outcome(w, [], [GameOver], PlayerDead)
    else if inputs == [] then
      Outcome(w, [], [Status(Here(w).name, w.player.hp)], InputExhausted)
    else
      Turn(w, inputs)
  }

  /** The loop body for a living player with a line left: report the status, read the line, run it. */
  function Turn(w: World, inputs: seq<string>): (o: Outcome)
    requires WellFormed(w) && inputs != []
    ensures WellFormed(o.world)
    decreases |inputs|, 0
  {
    var status := Status(Here(w).name, w.player.hp);
    match Parse(inputs[0])
    case None => Outcome(w, [], [status, GameOver], Unrecognized)
    case Some(c) =>
      var s := Step(w, c);
      var o := Run(s.0, inputs[1..]);
      Outcome(o.world, [c] + o.executed, [status] + s.1 + o.events, o.ending)
  }

  /** The commands the loop ran are those of its first lines, in order. */
  lemma {:induction false} RunParsesLines(w: World, inputs: seq<string>)
    requires WellFormed(w)
    ensures var o := Run(w, inputs);
      && |o.executed| <= |inputs|
      && (forall i :: 0 <= i < |o.executed| ==> Parse(inputs[i]) == Some(o.executed[i]))
    decreases |inputs|
  {
    if w.player.hp > 0 && inputs != [] && Parse(inputs[0]).Some? {
      var c := Parse(inputs[0]).value;
      RunParsesLines(Step(w, c).0, inputs[1..]);
      assert Run(w, inputs).executed == [c] + Run(Step(w, c).0, inputs[1..]).executed;
    }
  }

  /**
    Why the loop stopped: for PlayerDead exactly when hp <= 0; at an unrecognised line
    only after running every line before it; for lack of input only after running
    every line.
  */
  lemma {:induction false} RunEnds(w: World, inputs: seq<string>)
    requires WellFormed(w)
    ensures var o := Run(w, inputs);
      && (o.ending == PlayerDead <==> o.world.player.hp <= 0)
      && (o.ending == Unrecognized ==> |o.executed| < |inputs| && Parse(inputs[|o.executed|]).None?)
      && (o.ending == InputExhausted ==> |o.executed| == |inputs|)
    decreases |inputs|
  {
    if w.player.hp > 0 && inputs != [] && Parse(inputs[0]).Some? {
      var c := Parse(inputs[0]).value;
      var w1 := Step(w, c).0;
      RunEnds(w1, inputs[1..]);
      var o1 := Run(w1, inputs[1..]);
      assert Run(w, inputs) == Outcome(o1.world, [c] + o1.executed, Run(w, inputs).events, o1.ending);
      if o1.ending == Unrecognized {
        assert inputs[1..][|o1.executed|] == inputs[|[c] + o1.executed|];
      }
    }
  }

  /** The closing message is the last thing reported on every ending except running out of input. */
  lemma {:induction false} RunCloses(w: World, inputs: seq<string>)
    requires WellFormed(w)
    ensures var o := Run(w, inputs);
      o.events != [] && (o.events[|o.events| - 1] == GameOver <==> o.ending != InputExhausted)
    decreases |inputs|
  {
    if w.player.hp > 0 && inputs != [] && Parse(inputs[0]).Some? {
      var c := Parse(inputs[0]).value;
      var s := Step(w, c);
      RunCloses(s.0, inputs[1..]);
      var o1 := Run(s.0, inputs[1..]);
      var events := [Status(Here(w).name, w.player.hp)] + s.1 + o1.events;
      assert Run(w, inputs).events == events;
      assert events[|events| - 1] == o1.events[|o1.events| - 1];
    }
  }

  /**
    The loop is a replay of the commands it ran, and each of them ran while the
    player was alive: the loop never executes a command for a dead player.
  */
  lemma {:induction false} RunReplays(w: World, inputs: seq<string>)
    requires WellFormed(w)
    ensures Run(w, inputs).world == Replay(w, Run(w, inputs).executed)
    ensures forall i :: 0 <= i < |Run(w, inputs).executed| ==> Replay(w, Run(w, inputs).executed[..i]).player.hp > 0
    decreases |inputs|
  {
    if w.player.hp > 0 && inputs != [] && Parse(inputs[0]).Some? {
      var c := Parse(inputs[0]).value;
      var w1 := Step(w, c).0;
      var o := Run(w1, inputs[1..]);
      RunReplays(w1, inputs[1..]);
      assert Run(w, inputs).executed == [c] + o.executed;
      ReplayCons(w, c, o.executed);
      ReplayPrefixes(w, c, o.executed);
      forall i | 0 <= i < |Run(w, inputs).executed|
        ensures Replay(w, Run(w, inputs).executed[..i]).player.hp > 0
      {
        if i == 0 {
          assert Run(w, inputs).executed[..i] == [];
        }
      }
    }
  }

  /**
    The loop at line i: how Run on the remaining lines begins, in each of its cases.
    With a command, the status and the command's reports come first, after the events
    already reported.
  */
  lemma RunAt(w: World, inputs: seq<string>, i: nat, prior: seq<Event>)
    requires WellFormed(w) && i <= |inputs|
    ensures w.player.hp <= 0 ==> Run(w, inputs[i..]) == Outcome(w, [], [GameOver], PlayerDead)
    ensures w.player.hp > 0 && i == |inputs| ==>
      Run(w, inputs[i..]) == Outcome(w, [], [Status(Here(w).name, w.player.hp)], InputExhausted)
    ensures w.player.hp > 0 && i < |inputs| && Parse(inputs[i]).None? ==>
      Run(w, inputs[i..]) == Outcome(w, [], [Status(Here(w).name, w.player.hp), GameOver], Unrecognized)
    ensures w.player.hp > 0 && i < |inputs| && Parse(inputs[i]).Some? ==>
      var s := Step(w, Parse(inputs[i]).value);
      && Run(w, inputs[i..]).world == Run(s.0, inputs[i + 1..]).world
      && prior + Run(w, inputs[i..]).events == prior + [Status(Here(w).name, w.player.hp)] + s.1 + Run(s.0, inputs[i + 1..]).events
  {
    if i < |inputs| {
      assert inputs[i..][0] == inputs[i] && inputs[i..][1..] == inputs[i + 1..];
    }
  }

  /** A recognised line read by a living player: its turn, then the run on the lines after it. */
  lemma RunCommand(w: World, line: string, rest: seq<string>, c: Command)
    requires WellFormed(w) && w.player.hp > 0 && Parse(line) == Some(c)
    ensures var s := Step(w, c); var o := Run(s.0, rest);
      Run(w, [line] + rest) == Outcome(o.world, [c] + o.executed, [Status(Here(w).name, w.player.hp)] + s.1 + o.events, o.ending)
  {
    assert ([line] + rest)[0] == line && ([line] + rest)[1..] == rest;
  }

  /** Running c first and then the rest is running [c] + rest. */
  lemma ReplayCons(w: World, c: Command, rest: seq<Command>)
    requires WellFormed(w)
    ensures Replay(w, [c] + rest) == Replay(Step(w, c).0, rest)
  {
    assert ([c] + rest)[0] == c && ([c] + rest)[1..] == rest;
  }

  /** The prefixes of [c] + rest are [] and c followed by the prefixes of rest. */
  lemma ReplayPrefixes(w: World, c: Command, rest: seq<Command>)
    requires WellFormed(w)
    ensures forall i :: 0 < i <= |rest| + 1 ==>
      Replay(w, ([c] + rest)[..i]) == Replay(Step(w, c).0, rest[..i - 1])
  {
    forall i | 0 < i <= |rest| + 1
      ensures Replay(w, ([c] + rest)[..i]) == Replay(Step(w, c).0, rest[..i - 1])
    {
      assert ([c] + rest)[..i] == [c] + rest[..i - 1];
      ReplayCons(w, c, rest[..i - 1]);
    }
  }

  /**
    Over any sequence of commands, killCount grows by exactly the number of monsters that
    died, and a dead monster never comes back.
  */
  lemma {:induction false} ReplayKillAccounting(w: World, cmds: seq<Command>)
    requires WellFormed(w)
    ensures Living(Replay(w, cmds)) <= Living(w)
    ensures Replay(w, cmds).player.killCount + |Living(Replay(w, cmds))| == w.player.killCount + |Living(w)|
    decreases |cmds|
  {
    if cmds != [] {
      StepKillAccounting(w, cmds[0]);
      ReplayKillAccounting(Step(w, cmds[0]).0, cmds[1..]);
    }
  }

  /** However long the game, the player cannot score more kills than there were living monsters. */
  lemma KillsBounded(w: World, inputs: seq<string>)
    requires WellFormed(w)
    ensures w.player.killCount <= Run(w, inputs).world.player.killCount <= w.player.killCount + |Living(w)|
  {
    RunReplays(w, inputs);
    ReplayKillAccounting(w, Run(w, inputs).executed);
    var w' := Run(w, inputs).world;
    assert |Living(w')| <= |Living(w)| by {
      SubsetCard(Living(w'), Living(w));
    }
  }

  lemma SubsetCard<T>(a: set<T>, b: set<T>)
    requires a <= b
    ensures |a| <= |b|
  {
    assert b == a + (b - a);
  }

  /** Potions only disappear, and only through UsePotion: a run with no UsePotion leaves every potion in place. */
  lemma {:induction false} ReplayPotions(w: World, cmds: seq<Command>)
    requires WellFormed(w)
    ensures Potions(Replay(w, cmds)) <= Potions(w)
    ensures UsePotion !in cmds ==> Potions(Replay(w, cmds)) == Potions(w)
    decreases |cmds|
  {
    if cmds != [] {
      StepPotions(w, cmds[0]);
      assert UsePotion !in cmds ==> UsePotion !in cmds[1..] && cmds[0] != UsePotion;
      ReplayPotions(Step(w, cmds[0]).0, cmds[1..]);
    }
  }

  /** path is a walk through the world's exits: each room is followed by the target of one of its exits. */
  ghost predicate IsWalk(w: World, path: seq<Room>) {
    && |path| > 0
    && (forall i :: 0 <= i < |path| ==> path[i] in w.rooms)
    && (forall i :: 0 < i < |path| ==> path[i] in w.rooms[path[i - 1]].exits.Values)
  }

  /** A walk depends only on the rooms and their exits. */
  lemma WalkSameGraph(w: World, w': World, path: seq<Room>)
    requires w'.rooms.Keys == w.rooms.Keys
    requires forall x :: x in w.rooms ==> w'.rooms[x].exits == w.rooms[x].exits
    requires IsWalk(w', path)
    ensures IsWalk(w, path)
  {
    forall i | 0 < i < |path|
      ensures path[i] in w.rooms[path[i - 1]].exits.Values
    {
      assert path[i - 1] in w'.rooms;
    }
  }

  /** A walk can be extended backwards by a room with an exit to where the walk starts. */
  lemma WalkPrepend(w: World, r: Room, path: seq<Room>)
    requires IsWalk(w, path) && r in w.rooms && path[0] in w.rooms[r].exits.Values
    ensures IsWalk(w, [r] + path) && ([r] + path)[|path|] == path[|path| - 1]
  {
  }

  /** The player only ever moves along existing exits: where a run of commands ends is reachable from where it started. */
  lemma {:induction false} ReplayFollowsExits(w: World, cmds: seq<Command>)
    requires WellFormed(w)
    ensures exists path :: IsWalk(w, path) && path[0] == w.current && path[|path| - 1] == Replay(w, cmds).current
    decreases |cmds|
  {
    if cmds == [] {
      assert IsWalk(w, [w.current]);
    } else {
      var w1 := Step(w, cmds[0]).0;
      var last := Replay(w1, cmds[1..]).current;
      assert Replay(w, cmds).current == last;
      ReplayFollowsExits(w1, cmds[1..]);
      var path1 :| IsWalk(w1, path1) && path1[0] == w1.current && path1[|path1| - 1] == last;
      WalkSameGraph(w, w1, path1);
      StepFollowsExit(w, cmds[0]);
      if w1.current != w.current {
        WalkPrepend(w, w.current, path1);
      }
    }
  }
}
