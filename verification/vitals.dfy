/**
 * The turn-state of one character as a value: hit points, stagger points and
 * the two recovery timers. The class `Character` delegates to these
 * functions, so each state change is specified once, here.
 */
module Vitality {
  import opened Skills

  datatype Vitals = Vitals(curhp: int, curstag: int, deathtimer: int, staggertimer: int)

  predicate Alive(v: Vitals)
  {
    v.curhp > 0
  }

  predicate Staggered(v: Vitals)
  {
    v.curstag < 1
  }

  /**
   * The invariant every character keeps: both pools within their bounds,
   * timers within their ranges, a running timer means the pool is empty, and
   * (when the pool has room at all) an empty pool means the timer runs.
   */
  predicate ValidVitals(v: Vitals, maxhp: int, maxstag: int)
  {
    && 0 <= v.curhp <= maxhp
    && 0 <= v.curstag <= maxstag
    && 0 <= v.deathtimer <= 3
    && 0 <= v.staggertimer <= 2
    && (v.deathtimer > 0 ==> v.curhp == 0)
    && (v.staggertimer > 0 ==> v.curstag == 0)
    && (maxhp > 0 && v.curhp == 0 ==> v.deathtimer > 0)
    && (maxstag > 0 && v.curstag == 0 ==> v.staggertimer > 0)
  }

  /** The damage multiplier against a character: 2 when staggered, else its resistance. */
  function MultFor(v: Vitals, res: Resistance, t: SkillType): (m: Halves)
    ensures Staggered(v) ==> m == StaggerMult
    ensures !Staggered(v) ==> m == res.OfType(t)
  {
    if Staggered(v) then StaggerMult else res.OfType(t)
  }

  /**
   * One application of damage. The two checks are independent: one hit can
   * kill and stagger at once, and a hit on a character whose stagger pool is
   * already empty arms the stagger timer again.
   */
  function AfterDamage(v: Vitals, damage: int): (r: Vitals)
    ensures v.curhp - damage <= 0 ==> r.curhp == 0 && r.deathtimer == 3
    ensures v.curhp - damage > 0 ==> r.curhp == v.curhp - damage && r.deathtimer == v.deathtimer
    ensures v.curstag == 0 ==> r.curstag == 0 && r.staggertimer == 2
    ensures v.curstag != 0 && v.curstag - damage <= 0 ==> r.curstag == 0 && r.staggertimer == 2
    ensures v.curstag != 0 && v.curstag - damage > 0 ==>
              r.curstag == v.curstag - damage && r.staggertimer == v.staggertimer
  {
    var hp := v.curhp - damage;
    var stag := if v.curstag != 0 then v.curstag - damage else v.curstag;
    Vitals(
      if hp <= 0 then 0 else hp,
      if stag <= 0 then 0 else stag,
      if hp <= 0 then 3 else v.deathtimer,
      if stag <= 0 then 2 else v.staggertimer)
  }

  /** Damage that is not negative keeps the invariant. */
  lemma DamageKeepsValid(v: Vitals, maxhp: int, maxstag: int, damage: int)
    requires ValidVitals(v, maxhp, maxstag) && damage >= 0
    ensures ValidVitals(AfterDamage(v, damage), maxhp, maxstag)
  {
  }

  /**
   * The timer part of a turn start: each running timer counts down, and every
   * pool whose timer then stands at 0 is refilled, whether the timer just
   * expired or was not running at all.
   */
  function Tick(v: Vitals, maxhp: int, maxstag: int): (r: Vitals)
    ensures r.deathtimer == if v.deathtimer > 0 then v.deathtimer - 1 else v.deathtimer
    ensures r.staggertimer == if v.staggertimer > 0 then v.staggertimer - 1 else v.staggertimer
    ensures r.deathtimer == 0 ==> r.curhp == maxhp
    ensures r.deathtimer != 0 ==> r.curhp == v.curhp
    ensures r.staggertimer == 0 ==> r.curstag == maxstag
    ensures r.staggertimer != 0 ==> r.curstag == v.curstag
    ensures v.deathtimer >= 0 ==> r.deathtimer >= 0
    ensures v.staggertimer >= 0 ==> r.staggertimer >= 0
  {
    var dt := if v.deathtimer > 0 then v.deathtimer - 1 else v.deathtimer;
    var st := if v.staggertimer > 0 then v.staggertimer - 1 else v.staggertimer;
    Vitals(
      if dt == 0 then maxhp else v.curhp,
      if st == 0 then maxstag else v.curstag,
      dt,
      st)
  }

  lemma TickKeepsValid(v: Vitals, maxhp: int, maxstag: int)
    requires ValidVitals(v, maxhp, maxstag)
    ensures ValidVitals(Tick(v, maxhp, maxstag), maxhp, maxstag)
  {
  }

  /** `k` successive turn starts. */
  function Ticks(v: Vitals, maxhp: int, maxstag: int, k: nat): Vitals
    decreases k
  {
    if k == 0 then v else Ticks(Tick(v, maxhp, maxstag), maxhp, maxstag, k - 1)
  }

  /**
   * The death timer after `k` turn starts: it counts down to 0 and stops
   * there, and hit points are full exactly from the first turn start at
   * which the timer reaches 0.
   */
  lemma {:induction false} DeathCountdown(v: Vitals, maxhp: int, maxstag: int, k: nat)
    requires v.deathtimer >= 0
    ensures Ticks(v, maxhp, maxstag, k).deathtimer == if v.deathtimer >= k then v.deathtimer - k else 0
    ensures Ticks(v, maxhp, maxstag, k).curhp == if 1 <= k && v.deathtimer <= k then maxhp else v.curhp
    decreases k
  {
    if k > 0 {
      DeathCountdown(Tick(v, maxhp, maxstag), maxhp, maxstag, k - 1);
    }
  }

  /** The stagger timer after `k` turn starts, in the same way. */
  lemma {:induction false} StaggerCountdown(v: Vitals, maxhp: int, maxstag: int, k: nat)
    requires v.staggertimer >= 0
    ensures Ticks(v, maxhp, maxstag, k).staggertimer == if v.staggertimer >= k then v.staggertimer - k else 0
    ensures Ticks(v, maxhp, maxstag, k).curstag == if 1 <= k && v.staggertimer <= k then maxstag else v.curstag
    decreases k
  {
    if k > 0 {
      StaggerCountdown(Tick(v, maxhp, maxstag), maxhp, maxstag, k - 1);
    }
  }

  /**
   * A character that has just died is back at full health after exactly
   * three turn starts, and not before.
   */
  lemma RevivesAfterThreeTicks(v: Vitals, maxhp: int, maxstag: int)
    requires ValidVitals(v, maxhp, maxstag) && maxhp > 0 && v.deathtimer == 3
    ensures Ticks(v, maxhp, maxstag, 1).curhp == 0 && Ticks(v, maxhp, maxstag, 2).curhp == 0
    ensures Ticks(v, maxhp, maxstag, 3).curhp == maxhp && Ticks(v, maxhp, maxstag, 3).deathtimer == 0
  {
    DeathCountdown(v, maxhp, maxstag, 1);
    DeathCountdown(v, maxhp, maxstag, 2);
    DeathCountdown(v, maxhp, maxstag, 3);
  }

  /** A character that has just been staggered recovers after exactly two turn starts. */
  lemma RecoversAfterTwoTicks(v: Vitals, maxhp: int, maxstag: int)
    requires ValidVitals(v, maxhp, maxstag) && maxstag > 0 && v.staggertimer == 2
    ensures Ticks(v, maxhp, maxstag, 1).curstag == 0
    ensures Ticks(v, maxhp, maxstag, 2).curstag == maxstag && Ticks(v, maxhp, maxstag, 2).staggertimer == 0
  {
    StaggerCountdown(v, maxhp, maxstag, 1);
    StaggerCountdown(v, maxhp, maxstag, 2);
  }

  /** A living, unstaggered character is restored to full pools by every turn start. */
  lemma TickRestoresHealthy(v: Vitals, maxhp: int, maxstag: int)
    requires ValidVitals(v, maxhp, maxstag) && Alive(v) && !Staggered(v)
    ensures Tick(v, maxhp, maxstag) == Vitals(maxhp, maxstag, 0, 0)
  {
  }
}
