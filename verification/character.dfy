/**
 * A combatant whose turn-state the engine updates in place. The objective
 * character of each team is the same class with `isObjective` set.
 */
module Characters {
  import opened Skills
  import opened Vitality

  /** A coin lands on heads when the draw (in 0..99) is below 50 plus the sanity. */
  predicate CoinHeads(draw: int, sanity: int)
  {
    draw < 50 + sanity
  }

  class Character {
    const name: string
    const maxhp: int
    const maxstag: int
    const skillcycle: seq<int>
    const spmin: int
    const spmax: int
    const resistance: Resistance
    const skills: seq<Skill>
    const isObjective: bool

    var curhp: int
    var curstag: int
    var sanity: int
    var speed: int
    var deathtimer: int
    var staggertimer: int

    function State(): Vitals
      reads this
    {
      Vitals(curhp, curstag, deathtimer, staggertimer)
    }

    predicate Valid()
      reads this
    {
      ValidVitals(State(), maxhp, maxstag)
    }

    /** A regular character at full health with no timer running. */
    constructor (name: string, maxhp: int, maxstag: int, sanity: int, skillcycle: seq<int>,
                 spmin: int, spmax: int, resistance: Resistance, skills: seq<Skill>)
      requires |skills| == 3
      ensures this.name == name && this.maxhp == maxhp && this.maxstag == maxstag
      ensures this.sanity == sanity && this.skillcycle == skillcycle
      ensures this.spmin == spmin && this.spmax == spmax
      ensures this.resistance == resistance && this.skills == skills && !isObjective
      ensures State() == Vitals(maxhp, maxstag, 0, 0) && speed == 0
      ensures maxhp >= 0 && maxstag >= 0 ==> Valid()
    {
      this.name := name;
      this.maxhp := maxhp;
      this.curhp := maxhp;
      this.maxstag := maxstag;
      this.curstag := maxstag;
      this.sanity := sanity;
      this.skillcycle := skillcycle;
      this.spmin := spmin;
      this.spmax := spmax;
      this.speed := 0;
      this.resistance := resistance;
      this.skills := skills;
      this.deathtimer := 0;
      this.staggertimer := 0;
      this.isObjective := false;
    }

    /** The objective ("Mephistopheles"): 50 hit points, 100 stagger, speed pinned at 0. */
    constructor Objective(skillcycle: seq<int>)
      ensures name == "Mephistopheles" && maxhp == 50 && maxstag == 100
      ensures sanity == 0 && this.skillcycle == skillcycle && spmin == 0 && spmax == 0
      ensures resistance == Resistance(2, 2, 2) && skills == [Skill(0, 0, 0, Slash), Skill(0, 0, 0, Slash), Skill(0, 0, 0, Slash)]
      ensures isObjective && State() == Vitals(50, 100, 0, 0) && speed == 0 && Valid()
    {
      name := "Mephistopheles";
      maxhp := 50;
      curhp := 50;
      maxstag := 100;
      curstag := 100;
      sanity := 0;
      this.skillcycle := skillcycle;
      spmin := 0;
      spmax := 0;
      speed := 0;
      resistance := Resistance(2, 2, 2);
      skills := [Skill(0, 0, 0, Slash), Skill(0, 0, 0, Slash), Skill(0, 0, 0, Slash)];
      deathtimer := 0;
      staggertimer := 0;
      isObjective := true;
    }

    method Stagger()
      modifies this
      ensures State() == old(State()).(staggertimer := 2)
      ensures sanity == old(sanity) && speed == old(speed)
    {
      staggertimer := 2;
    }

    method Die()
      modifies this
      ensures State() == old(State()).(deathtimer := 3)
      ensures sanity == old(sanity) && speed == old(speed)
    {
      deathtimer := 3;
    }

    predicate IsAlive()
      reads this
    {
      Alive(State())
    }

    predicate IsStagger()
      reads this
    {
      Staggered(State())
    }

    predicate CoinToss(draw: int)
      reads this
    {
      CoinHeads(draw, sanity)
    }

    function FindMult(t: SkillType): Halves
      reads this
    {
      MultFor(State(), resistance, t)
    }

    /** Lowers both pools by `damage`, clamping at 0 and arming the timers. */
    method TakeDamage(damage: int)
      modifies this
      ensures State() == AfterDamage(old(State()), damage)
      ensures sanity == old(sanity) && speed == old(speed)
      ensures old(Valid()) && damage >= 0 ==> Valid()
    {
      curhp := curhp - damage;
      if curstag != 0 {
        curstag := curstag - damage;
      }
      if curstag <= 0 {
        curstag := 0;
        Stagger();
      }
      if curhp <= 0 {
        curhp := 0;
        Die();
      }
      if old(Valid()) && damage >= 0 {
        DamageKeepsValid(old(State()), maxhp, maxstag, damage);
      }
    }

    /**
     * The start of an act: a regular character takes the injected speed roll
     * (a draw from spmin..spmax) and advances its timers; the objective does nothing.
     */
    method NextTurn(roll: int)
      requires !isObjective ==> spmin <= roll <= spmax
      modifies this
      ensures Ticked(this, roll)
      ensures old(Valid()) ==> Valid()
    {
      if isObjective {
        return;
      }
      speed := roll;
      if deathtimer > 0 {
        deathtimer := deathtimer - 1;
      }
      if deathtimer == 0 {
        curhp := maxhp;
      }
      if staggertimer > 0 {
        staggertimer := staggertimer - 1;
      }
      if staggertimer == 0 {
        curstag := maxstag;
      }
      if old(Valid()) {
        TickKeepsValid(old(State()), maxhp, maxstag);
      }
    }

    /**
     * The attack mode when this character targets `targ`: a clash only when
     * the target is not the objective, this character is strictly faster, the
     * target is not staggered, and the player asked for a clash.
     */
    function Target(targ: Character, choice: ActionType): (r: ActionType)
      reads this, targ
      ensures r.Clash? <==> !targ.isObjective && speed > targ.speed && !targ.IsStagger() && choice.Clash?
    {
      if targ.isObjective then OneSide
      else if speed > targ.speed then
        if targ.IsStagger() then OneSide
        else if choice == OneSide then OneSide
        else Clash
      else OneSide
    }
  }

  /** What a turn start does to `c`, relative to the state before it. */
  twostate predicate Ticked(c: Character, roll: int)
    reads c
  {
    && c.sanity == old(c.sanity)
    && if c.isObjective then c.State() == old(c.State()) && c.speed == old(c.speed)
       else c.speed == roll && c.State() == Tick(old(c.State()), c.maxhp, c.maxstag)
  }

  /**
   * A freshly built regular character, not being staggered, is hit with
   * exactly the resistance it was given, for every damage type.
   */
  lemma FreshMultiplier(c: Character, t: SkillType)
    requires c.State() == Vitals(c.maxhp, c.maxstag, 0, 0) && c.maxstag >= 1
    ensures c.FindMult(t) == c.resistance.OfType(t)
  {
  }

  /** Every coin of a character with sanity 50 or more lands on heads, and none with -50 or less. */
  lemma SanityDecidesCoin(draw: int, sanity: int)
    requires 0 <= draw <= 99
    ensures sanity >= 50 ==> CoinHeads(draw, sanity)
    ensures sanity <= -50 ==> !CoinHeads(draw, sanity)
  {
  }
}
