/**
 * Static value objects of the combat engine: damage types, action kinds,
 * per-type resistances and skills.
 */
module Skills {
  import opened Options

  datatype SkillType = Slash | Pierce | Bash

  /** The upper-case label a damage type is recognised by. */
  function Label(t: SkillType): string
  {
    match t
    case Slash => "SLASH"
    case Pierce => "PIERCE"
    case Bash => "BASH"
  }

  /** The capital letters, in alphabetical order. */
  const Capitals: string := "ABCDEFGHIJKLMNOPQRSTUVWXYZ"

  /** ASCII upper-casing of one character: a small letter becomes the capital at its place in the alphabet. */
  function UpperChar(c: char): (u: char)
    ensures 'a' <= c <= 'z' ==> u == Capitals[c as int - 'a' as int]
    ensures !('a' <= c <= 'z') ==> u == c
  {
    if 'a' <= c <= 'z' then (c as int - 32) as char else c
  }

  /** ASCII upper-casing of a string, letter by letter. */
  function Upper(s: string): (u: string)
    ensures |u| == |s|
    ensures forall i :: 0 <= i < |s| && 'a' <= s[i] <= 'z' ==> u[i] == Capitals[s[i] as int - 'a' as int]
    ensures forall i :: 0 <= i < |s| && !('a' <= s[i] <= 'z') ==> u[i] == s[i]
  {
    seq(|s|, i requires 0 <= i < |s| => UpperChar(s[i]))
  }

  /** Upper-casing twice is upper-casing once. */
  lemma UpperIdempotent(s: string)
    ensures Upper(Upper(s)) == Upper(s)
  {
    var u := Upper(s);
    forall i | 0 <= i < |s|
      ensures Upper(u)[i] == u[i]
    {
      assert !('a' <= u[i] <= 'z') by {
        if 'a' <= s[i] <= 'z' {
          CapitalNotSmall(s[i] as int - 'a' as int);
        }
      }
    }
  }

  /** No capital is a small letter. */
  lemma CapitalNotSmall(k: int)
    requires 0 <= k < |Capitals|
    ensures !('a' <= Capitals[k] <= 'z')
  {
  }

  /** Labels are already upper case. */
  lemma UpperLabel(t: SkillType)
    ensures Upper(Label(t)) == Label(t)
  {
    var l := Label(t);
    forall i | 0 <= i < |l|
      ensures Upper(l)[i] == l[i]
    {
    }
  }

  /**
   * Parses a damage-type label case-insensitively; an unknown label is the
   * error the source raises as `NameError`, here `None`.
   */
  function FromStr(text: string): (r: Option<SkillType>)
    ensures r.Some? <==> Upper(text) in {"SLASH", "PIERCE", "BASH"}
    ensures r.Some? ==> Label(r.value) == Upper(text)
  {
    var u := Upper(text);
    if u == "SLASH" then Some(Slash)
    else if u == "PIERCE" then Some(Pierce)
    else if u == "BASH" then Some(Bash)
    else None
  }

  /** Parsing is the inverse of labelling, whatever the case of the letters. */
  lemma FromStrLabel(t: SkillType, text: string)
    requires Upper(text) == Label(t)
    ensures FromStr(text) == Some(t)
  {
  }

  /** The lower-case spellings used when skills are built. */
  lemma FromStrLowerCase()
    ensures FromStr("slash") == Some(Slash)
    ensures FromStr("pierce") == Some(Pierce)
    ensures FromStr("bash") == Some(Bash)
    ensures FromStr("blunt") == None
  {
    assert Upper("slash") == "SLASH";
    assert Upper("pierce") == "PIERCE";
    assert Upper("bash") == "BASH";
    assert Upper("blunt") == "BLUNT";
  }

  datatype ActionType = OneSide | Clash

  /**
   * A damage multiplier counted in halves: 1 is 0.5, 2 is 1 and 4 is 2.
   * These are the only multipliers that occur.
   */
  type Halves = nat

  /** The multiplier against a staggered character: 2, i.e. four halves. */
  const StaggerMult: Halves := 4

  datatype Resistance = Resistance(slash: Halves, pierce: Halves, bash: Halves)
  {
    /** The multiplier this resistance applies to damage of type `t`. */
    function OfType(t: SkillType): (m: Halves)
      ensures t == Slash ==> m == slash
      ensures t == Pierce ==> m == pierce
      ensures t == Bash ==> m == bash
    {
      match t
      case Slash => slash
      case Pierce => pierce
      case Bash => bash
    }
  }

  /**
   * `int(value * multiplier)` with the multiplier given in halves: the exact
   * product, truncated toward zero.
   */
  function Scaled(value: int, mult: Halves): (r: int)
    ensures value >= 0 ==> 0 <= r && 2 * r <= value * mult < 2 * r + 2
    ensures value < 0 ==> r <= 0 && 2 * r - 2 < value * mult <= 2 * r
  {
    if value >= 0 then value * mult / 2
    else
      var p := (-value) * mult;
      assert value * mult == -p;
      -(p / 2)
  }

  /** A skill: base value, number of coins, value added by each head, damage type. */
  datatype Skill = Skill(baseval: int, coinnum: int, coinval: int, skillType: SkillType)
  {
    /** Every skill of the roster has non-negative parameters. */
    predicate Valid()
    {
      baseval >= 0 && coinnum >= 0 && coinval >= 0
    }
  }
}
