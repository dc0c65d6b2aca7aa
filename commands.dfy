/**
  The command parser: a raw input line becomes one typed command, or no command at all
  (the source returns null), by fixed prefixes and exact matches only.
*/
module Commands {
  import opened Options

  /** One parsed user intent: MoveCommand, AttackCommand, LookCommand, UsePotionCommand, SkillCommand. */
  datatype Command =
    | Move(direction: string)
    | Attack
    | Look
    | UsePotion
    | Skill(name: string)

  const MovePrefix: string := "move "
  const SkillPrefix: string := "skill "

  /** Java's String.startsWith. */
  predicate StartsWith(s: string, prefix: string) {
    |prefix| <= |s| && s[..|prefix|] == prefix
  }

  /** The two prefixes exclude each other, so the order of the two prefix tests does not matter. */
  lemma PrefixesDisjoint(s: string)
    ensures !(StartsWith(s, MovePrefix) && StartsWith(s, SkillPrefix))
  {
    if StartsWith(s, MovePrefix) {
      assert s[0] == s[..|MovePrefix|][0] == 'm';
    }
  }

  /** None of the three exact keywords starts with either prefix. */
  lemma KeywordsHaveNoPrefix()
    ensures forall k :: k in {"attack", "look", "use potion"} ==>
      !StartsWith(k, MovePrefix) && !StartsWith(k, SkillPrefix)
  {
    assert "attack"[..|MovePrefix|][0] == 'a';
    assert "attack"[..|SkillPrefix|][0] == 'a';
    assert "use potion"[..|MovePrefix|][0] == 'u';
    assert "use potion"[..|SkillPrefix|][0] == 'u';
  }

  /** CommandParser.parse: no trimming and no case folding; the move prefix is tested first. */
  function Parse(input: string): (r: Option<Command>)
    ensures r == Some(Attack) <==> input == "attack"
    ensures r == Some(Look) <==> input == "look"
    ensures r == Some(UsePotion) <==> input == "use potion"
    ensures (r.Some? && r.value.Move?) <==> StartsWith(input, MovePrefix)
    ensures (r.Some? && r.value.Move?) ==> r.value.direction == input[|MovePrefix|..]
    ensures (r.Some? && r.value.Skill?) <==> StartsWith(input, SkillPrefix)
    ensures (r.Some? && r.value.Skill?) ==> r.value.name == input[|SkillPrefix|..]
    ensures r.None? <==>
      && !StartsWith(input, MovePrefix) && !StartsWith(input, SkillPrefix)
      && input != "attack" && input != "look" && input != "use potion"
  {
    PrefixesDisjoint(input);
    KeywordsHaveNoPrefix();
    if StartsWith(input, MovePrefix) then Some(Move(input[|MovePrefix|..]))
    else if input == "attack" then Some(Attack)
    else if input == "look" then Some(Look)
    else if input == "use potion" then Some(UsePotion)
    else if StartsWith(input, SkillPrefix) then Some(Skill(input[|SkillPrefix|..]))
    else None
  }

  /** The line a player types for a command: the inverse of Parse. */
  function Unparse(c: Command): string {
    match c
    case Move(d) => MovePrefix + d
    case Attack => "attack"
    case Look => "look"
    case UsePotion => "use potion"
    case Skill(n) => SkillPrefix + n
  }

  /** Every command has a line that parses back to exactly it. */
  lemma ParseUnparse(c: Command)
    ensures Parse(Unparse(c)) == Some(c)
  {
    match c
    case Move(d) =>
      assert (MovePrefix + d)[..|MovePrefix|] == MovePrefix;
      assert (MovePrefix + d)[|MovePrefix|..] == d;
    case Skill(n) =>
      assert (SkillPrefix + n)[..|SkillPrefix|] == SkillPrefix;
      assert (SkillPrefix + n)[|SkillPrefix|..] == n;
    case _ =>
  }

  /** Every line that parses is the line of the command it parses to: Parse is injective on what it accepts. */
  lemma UnparseParse(input: string)
    requires Parse(input).Some?
    ensures Unparse(Parse(input).value) == input
  {
    var c := Parse(input).value;
    if c.Move? {
      assert input == input[..|MovePrefix|] + input[|MovePrefix|..];
    } else if c.Skill? {
      assert input == input[..|SkillPrefix|] + input[|SkillPrefix|..];
    }
  }
}
