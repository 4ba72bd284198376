/**
 * Resolution of one action: the one-sided coin-by-coin attack, the clash
 * exchange and the choice between them. Coin flips consume injected draws
 * (each in 0..99); when the draws run out the result is `OutOfDraws`.
 */
module Combat {
  import opened Options
  import opened Skills
  import opened Vitality
  import opened Characters
  import opened Actions

  /** How a resolution step ends; `ObjectiveDestroyed` ends the game. */
  datatype Outcome = Resolved | ObjectiveDestroyed | OutOfDraws

  datatype Stop = AllFlipped | DefenderDown | DrawsExhausted

  /** The defender's state after an attack, the unused draws and why the attack stopped. */
  datatype Volley = Volley(after: Vitals, rest: seq<int>, stop: Stop)

  function Verdict(stop: Stop, objective: bool): (out: Outcome)
    ensures out.ObjectiveDestroyed? <==> stop.DefenderDown? && objective
    ensures out.OutOfDraws? <==> stop.DrawsExhausted?
  {
    match stop
    case AllFlipped => Resolved
    case DefenderDown => if objective then ObjectiveDestroyed else Resolved
    case DrawsExhausted => OutOfDraws
  }

  /**
   * The coins of a one-sided attack from coin number `coinNum` on: each coin
   * adds its value on heads to the running total `dmg`, and the defender
   * takes that total times the multiplier read for that very coin; the
   * attack stops as soon as the defender is dead.
   */
  function Flips(v: Vitals, res: Resistance, skill: Skill, sanity: int, dmg: int, coinNum: int,
                 draws: seq<int>): Volley
    decreases skill.coinnum - coinNum
  {
    if skill.coinnum <= coinNum then Volley(v, draws, AllFlipped)
    else if draws == [] then Volley(v, draws, DrawsExhausted)
    else
      var mult := MultFor(v, res, skill.skillType);
      var dmg' := if CoinHeads(draws[0], sanity) then dmg + skill.coinval else dmg;
      var v' := AfterDamage(v, Scaled(dmg', mult));
      if !Alive(v') then Volley(v', draws[1..], DefenderDown)
      else Flips(v', res, skill, sanity, dmg', coinNum + 1, draws[1..])
  }

  /**
   * An attack uses one draw per coin it flips and flips at most the coins
   * after `coinNum`; it stops early only when the defender dies or the
   * draws run out; without a draw used the defender is unchanged.
   */
  lemma {:induction false} FlipsBounds(v: Vitals, res: Resistance, skill: Skill, sanity: int, dmg: int, coinNum: int,
                                       draws: seq<int>)
    ensures var r := Flips(v, res, skill, sanity, dmg, coinNum, draws);
            && |r.rest| <= |draws|
            && |draws| - |r.rest| <= (if skill.coinnum > coinNum then skill.coinnum - coinNum else 0)
            && (|r.rest| == |draws| ==> r.after == v)
            && (r.stop.DefenderDown? ==> !Alive(r.after))
            && (Alive(v) && !r.stop.DefenderDown? ==> Alive(r.after))
            && (r.stop.AllFlipped? && Alive(v) && skill.coinnum > coinNum ==> |draws| - |r.rest| == skill.coinnum - coinNum)
    decreases skill.coinnum - coinNum
  {
    if skill.coinnum > coinNum && draws != [] {
      var mult := MultFor(v, res, skill.skillType);
      var dmg' := if CoinHeads(draws[0], sanity) then dmg + skill.coinval else dmg;
      var v' := AfterDamage(v, Scaled(dmg', mult));
      if Alive(v') {
        FlipsBounds(v', res, skill, sanity, dmg', coinNum + 1, draws[1..]);
      }
    }
  }

  /** An attack with a non-negative skill keeps the defender's invariant. */
  lemma {:induction false} FlipsKeepValid(v: Vitals, maxhp: int, maxstag: int, res: Resistance, skill: Skill,
                                          sanity: int, dmg: int, coinNum: int, draws: seq<int>)
    requires ValidVitals(v, maxhp, maxstag) && skill.Valid() && dmg >= 0
    ensures ValidVitals(Flips(v, res, skill, sanity, dmg, coinNum, draws).after, maxhp, maxstag)
    decreases skill.coinnum - coinNum
  {
    if skill.coinnum > coinNum && draws != [] {
      var mult := MultFor(v, res, skill.skillType);
      var dmg' := if CoinHeads(draws[0], sanity) then dmg + skill.coinval else dmg;
      DamageKeepsValid(v, maxhp, maxstag, Scaled(dmg', mult));
      var v' := AfterDamage(v, Scaled(dmg', mult));
      if Alive(v') {
        FlipsKeepValid(v', maxhp, maxstag, res, skill, sanity, dmg', coinNum + 1, draws[1..]);
      }
    }
  }

  /**
   * A one-coin slash skill 4+7 landing heads on an unstaggered target whose
   * slash resistance is 2 deals floor((4 + 7) * 2) = 22.
   */
  lemma HeadAgainstWeakness()
    ensures Flips(Vitals(159, 24, 0, 0), Resistance(4, 1, 2), Skill(4, 1, 7, Slash), 0, 4, 0, [10])
            == Volley(Vitals(137, 2, 0, 0), [], AllFlipped)
  {
  }

  /**
   * Once the first coin staggers the target, the second coin already uses
   * the staggered multiplier 2: 4 then (4 + 2) * 2 = 12.
   */
  lemma StaggerMidAttack()
    ensures Flips(Vitals(100, 4, 0, 0), Resistance(2, 2, 2), Skill(4, 2, 2, Bash), 0, 4, 0, [99, 0])
            == Volley(Vitals(84, 0, 0, 2), [], AllFlipped)
  {
    var v1 := AfterDamage(Vitals(100, 4, 0, 0), 4);
    assert v1 == Vitals(96, 0, 0, 2);
    assert MultFor(v1, Resistance(2, 2, 2), Bash) == 4;
  }

  /** One side of a clash: the skill used and the sanity of whoever uses it. */
  datatype Side = Side(skill: Skill, sanity: int)

  /** The coins each side lost, the number of rounds, and the unused draws; or no result for lack of draws. */
  datatype Exchange = Decided(attLost: nat, defLost: nat, rounds: nat, rest: seq<int>) | Undecided

  /**
   * The value a side shows in one clash round: its base value plus the coin
   * value for every head among the draws from `lo` up to `hi`, one draw per
   * coin it still has.
   */
  function Showing(side: Side, draws: seq<int>, lo: nat, hi: nat): (v: int)
    requires lo <= hi <= |draws|
    ensures side.skill.Valid() ==> side.skill.baseval <= v
    decreases hi - lo
  {
    if hi == lo then side.skill.baseval
    else Showing(side, draws, lo, hi - 1) + (if CoinHeads(draws[hi - 1], side.sanity) then side.skill.coinval else 0)
  }

  /**
   * The clash rounds from a given number of lost coins on. Each round flips
   * every remaining coin of the attacker, then every remaining coin of the
   * defender; the lower value loses one coin and a tie loses none. The
   * rounds stop when either side has no coin left.
   */
  function Rounds(att: Side, def: Side, attLost: nat, defLost: nat, round: nat, draws: seq<int>, pos: nat): Exchange
    requires att.skill.Valid() && def.skill.Valid()
    requires attLost <= att.skill.coinnum && defLost <= def.skill.coinnum && pos <= |draws|
    decreases |draws| - pos
  {
    var na := att.skill.coinnum - attLost;
    var nd := def.skill.coinnum - defLost;
    if na == 0 || nd == 0 then Decided(attLost, defLost, round, draws[pos..])
    else if |draws| - pos < na + nd then Undecided
    else
      var attVal := Showing(att, draws, pos, pos + na);
      var defVal := Showing(def, draws, pos + na, pos + na + nd);
      if attVal > defVal then Rounds(att, def, attLost, defLost + 1, round + 1, draws, pos + na + nd)
      else if defVal > attVal then Rounds(att, def, attLost + 1, defLost, round + 1, draws, pos + na + nd)
      else Rounds(att, def, attLost, defLost, round + 1, draws, pos + na + nd)
  }

  /**
   * A decided clash ends with a side out of coins; every lost coin took a
   * round of its own; and every round used at least two draws, one coin
   * of each side.
   */
  lemma {:induction false} RoundsBounds(att: Side, def: Side, attLost: nat, defLost: nat, round: nat, draws: seq<int>, pos: nat)
    requires att.skill.Valid() && def.skill.Valid()
    requires attLost <= att.skill.coinnum && defLost <= def.skill.coinnum && pos <= |draws|
    ensures var r := Rounds(att, def, attLost, defLost, round, draws, pos);
            r.Decided? ==>
              && attLost <= r.attLost <= att.skill.coinnum && defLost <= r.defLost <= def.skill.coinnum
              && (r.attLost == att.skill.coinnum || r.defLost == def.skill.coinnum)
              && r.rounds >= round + (r.attLost - attLost) + (r.defLost - defLost)
              && 2 * (r.rounds - round) + |r.rest| <= |draws| - pos
    decreases |draws| - pos
  {
    var na := att.skill.coinnum - attLost;
    var nd := def.skill.coinnum - defLost;
    if na != 0 && nd != 0 && |draws| - pos >= na + nd {
      var attVal := Showing(att, draws, pos, pos + na);
      var defVal := Showing(def, draws, pos + na, pos + na + nd);
      var next := pos + na + nd;
      if attVal > defVal {
        RoundsBounds(att, def, attLost, defLost + 1, round + 1, draws, next);
      } else if defVal > attVal {
        RoundsBounds(att, def, attLost + 1, defLost, round + 1, draws, next);
      } else {
        RoundsBounds(att, def, attLost, defLost, round + 1, draws, next);
      }
    }
  }

  /**
   * Unless both sides start without coins, a decided clash has exactly one
   * loser: the side whose coins are all lost.
   */
  lemma {:induction false} OneLoser(att: Side, def: Side, attLost: nat, defLost: nat, round: nat, draws: seq<int>, pos: nat)
    requires att.skill.Valid() && def.skill.Valid()
    requires attLost <= att.skill.coinnum && defLost <= def.skill.coinnum && pos <= |draws|
    requires attLost < att.skill.coinnum || defLost < def.skill.coinnum
    ensures var r := Rounds(att, def, attLost, defLost, round, draws, pos);
            r.Decided? ==> (r.attLost == att.skill.coinnum) != (r.defLost == def.skill.coinnum)
    decreases |draws| - pos
  {
    var na := att.skill.coinnum - attLost;
    var nd := def.skill.coinnum - defLost;
    if na != 0 && nd != 0 && |draws| - pos >= na + nd {
      var attVal := Showing(att, draws, pos, pos + na);
      var defVal := Showing(def, draws, pos + na, pos + na + nd);
      var next := pos + na + nd;
      if attVal > defVal {
        OneLoser(att, def, attLost, defLost + 1, round + 1, draws, next);
      } else if defVal > attVal {
        OneLoser(att, def, attLost + 1, defLost, round + 1, draws, next);
      } else {
        OneLoser(att, def, attLost, defLost, round + 1, draws, next);
      }
    }
  }

  /** Two coinless skills: no round is played and both sides count as winners. */
  lemma NoCoinsNoRounds(att: Side, def: Side, draws: seq<int>)
    requires att.skill.Valid() && def.skill.Valid()
    requires att.skill.coinnum == 0 && def.skill.coinnum == 0
    ensures Rounds(att, def, 0, 0, 0, draws, 0) == Decided(0, 0, 0, draws)
  {
  }

  /** Too few draws left for the next round: the clash is undecided. */
  lemma RoundsShort(att: Side, def: Side, attLost: nat, defLost: nat, round: nat, draws: seq<int>, pos: nat)
    requires att.skill.Valid() && def.skill.Valid() && pos <= |draws|
    requires attLost < att.skill.coinnum && defLost < def.skill.coinnum
    requires |draws| - pos < (att.skill.coinnum - attLost) + (def.skill.coinnum - defLost)
    ensures Rounds(att, def, attLost, defLost, round, draws, pos) == Undecided
  {
  }

  /** One full round of `Rounds`, given the values the two sides show in it. */
  lemma RoundsStep(att: Side, def: Side, attLost: nat, defLost: nat, round: nat, draws: seq<int>, pos: nat,
                   mid: nat, next: nat, attVal: int, defVal: int)
    requires att.skill.Valid() && def.skill.Valid()
    requires attLost < att.skill.coinnum && defLost < def.skill.coinnum
    requires mid == pos + (att.skill.coinnum - attLost) && next == mid + (def.skill.coinnum - defLost) <= |draws|
    requires attVal == Showing(att, draws, pos, mid) && defVal == Showing(def, draws, mid, next)
    ensures Rounds(att, def, attLost, defLost, round, draws, pos)
            == Rounds(att, def, if defVal > attVal then attLost + 1 else attLost,
                      if attVal > defVal then defLost + 1 else defLost, round + 1, draws, next)
  {
  }

  /** A side with sanity 50 or more lands every coin on heads, so it shows its full value. */
  lemma {:induction false} AllHeads(side: Side, draws: seq<int>, lo: nat, hi: nat)
    requires lo <= hi <= |draws| && side.sanity >= 50
    requires forall i :: lo <= i < hi ==> 0 <= draws[i] < 100
    ensures Showing(side, draws, lo, hi) == side.skill.baseval + (hi - lo) * side.skill.coinval
    decreases hi - lo
  {
    if hi > lo {
      AllHeads(side, draws, lo, hi - 1);
      assert CoinHeads(draws[hi - 1], side.sanity);
      assert (hi - 1 - lo) * side.skill.coinval + side.skill.coinval == (hi - lo) * side.skill.coinval;
    }
  }

  /**
   * When both sides have sanity 50 or more, every coin lands on heads; two
   * skills with coins and the same full value then tie in every round, no
   * coin is ever lost, and no number of draws in 0..99 decides the clash.
   */
  lemma {:induction false} EqualHeadsNeverDecide(att: Side, def: Side, round: nat, draws: seq<int>, pos: nat)
    requires att.skill.Valid() && def.skill.Valid()
    requires att.sanity >= 50 && def.sanity >= 50
    requires att.skill.coinnum > 0 && def.skill.coinnum > 0
    requires att.skill.baseval + att.skill.coinnum * att.skill.coinval
             == def.skill.baseval + def.skill.coinnum * def.skill.coinval
    requires pos <= |draws| && forall i :: 0 <= i < |draws| ==> 0 <= draws[i] < 100
    ensures Rounds(att, def, 0, 0, round, draws, pos) == Undecided
    decreases |draws| - pos
  {
    var na := att.skill.coinnum;
    var nd := def.skill.coinnum;
    if |draws| - pos >= na + nd {
      AllHeads(att, draws, pos, pos + na);
      AllHeads(def, draws, pos + na, pos + na + nd);
      EqualHeadsNeverDecide(att, def, round + 1, draws, pos + na + nd);
    }
  }

  /**
   * Flips, one draw each, the coins a side still has in a clash round
   * (coins `lost + 1` to `coinnum`), adding the coin value on each head;
   * `ok` is false when the draws run out first.
   */
  method TossRemaining(side: Side, lost: int, draws: seq<int>, pos: nat) returns (value: int, next: nat, ok: bool)
    requires side.skill.Valid() && 0 <= lost <= side.skill.coinnum && pos <= |draws|
    ensures ok ==> next == pos + (side.skill.coinnum - lost) <= |draws| && value == Showing(side, draws, pos, next)
    ensures !ok <==> |draws| - pos < side.skill.coinnum - lost
  {
    value, next := side.skill.baseval, pos;
    var coinNum := lost;
    while side.skill.coinnum > coinNum
      invariant lost <= coinNum <= side.skill.coinnum
      invariant next == pos + (coinNum - lost) <= |draws|
      invariant value == Showing(side, draws, pos, next)
    {
      if next == |draws| {
        return value, next, false;
      }
      coinNum := coinNum + 1;
      if CoinHeads(draws[next], side.sanity) {
        value := value + side.skill.coinval;
      }
      next := next + 1;
    }
    ok := true;
  }

  /** The clash loop as the source runs it, round by round; it computes `Rounds` from no lost coins. */
  method ClashRounds(att: Side, def: Side, draws: seq<int>) returns (ex: Exchange)
    requires att.skill.Valid() && def.skill.Valid()
    ensures ex == Rounds(att, def, 0, 0, 0, draws, 0)
    ensures ex.Decided? && (att.skill.coinnum > 0 || def.skill.coinnum > 0) ==>
              (ex.attLost == att.skill.coinnum) != (ex.defLost == def.skill.coinnum)
  {
    var clashNum := 0;
    var attCount, defCount := att.skill.coinnum, def.skill.coinnum;
    var attLost, defLost := 0, 0;
    var pos := 0;
    while attCount > attLost && defCount > defLost
      invariant 0 <= attLost <= attCount && 0 <= defLost <= defCount
      invariant pos <= |draws|
      invariant Rounds(att, def, attLost, defLost, clashNum, draws, pos) == Rounds(att, def, 0, 0, 0, draws, 0)
      decreases |draws| - pos
    {
      var attVal, mid, ok := TossRemaining(att, attLost, draws, pos);
      if !ok {
        RoundsShort(att, def, attLost, defLost, clashNum, draws, pos);
        return Undecided;
      }
      var defVal, next;
      defVal, next, ok := TossRemaining(def, defLost, draws, mid);
      if !ok {
        RoundsShort(att, def, attLost, defLost, clashNum, draws, pos);
        return Undecided;
      }
      RoundsStep(att, def, attLost, defLost, clashNum, draws, pos, mid, next, attVal, defVal);
      clashNum := clashNum + 1;
      pos := next;
      if attVal > defVal {
        defLost := defLost + 1;
      } else if defVal > attVal {
        attLost := attLost + 1;
      }
    }
    ex := Decided(attLost, defLost, clashNum, draws[pos..]);
    if att.skill.coinnum > 0 || def.skill.coinnum > 0 {
      OneLoser(att, def, 0, 0, 0, draws, 0);
    }
  }

  /** What resolution can change of a character: its turn state, sanity and speed. */
  datatype Standing = Standing(vitals: Vitals, sanity: int, speed: int)

  /** The standing of each character of a roster. */
  type World = map<Character, Standing>

  /** The roster's standing in the current state. */
  ghost function Snapshot(roster: set<Character>): (w: World)
    reads roster
    ensures w.Keys == roster
  {
    map c | c in roster :: Standing(c.State(), c.sanity, c.speed)
  }

  /** A world after an attack, with the outcome and the unused draws. */
  datatype Hit = Hit(world: World, out: Outcome, rest: seq<int>)

  /**
   * The one-sided attack of `a` on a world: the coins from `coinLost` on,
   * flipped with the attacker's sanity in that world, change the defender's
   * turn state and nothing else.
   */
  function Strike(w: World, a: Action, coinLost: int, draws: seq<int>): (h: Hit)
    requires a.att in w && a.defn in w
    ensures h.world.Keys == w.Keys
  {
    var r := Flips(w[a.defn].vitals, a.defn.resistance, a.skill, w[a.att].sanity, a.skill.baseval, coinLost, draws);
    Hit(w[a.defn := w[a.defn].(vitals := r.after)], Verdict(r.stop, a.defn.isObjective), r.rest)
  }

  /** The world after `c` gains `gain` sanity. */
  function Raise(w: World, c: Character, gain: int): (w': World)
    requires c in w
    ensures w'.Keys == w.Keys
  {
    w[c := w[c].(sanity := w[c].sanity + gain)]
  }

  /**
   * The clash of `a` against the defender's own action `d` on a world. The
   * rounds are played with both sanities as they stand; a winner gains
   * 10 + rounds sanity and attacks one-sided with its own action, skipping
   * the coins it lost. Both sides win only when neither skill has a coin.
   */
  function ClashOn(w: World, a: Action, d: Action, draws: seq<int>): (h: Hit)
    requires a.skill.Valid() && d.skill.Valid() && d.att == a.defn
    requires a.att in w && a.defn in w && d.defn in w
    ensures h.world.Keys == w.Keys
  {
    var ex := Rounds(Side(a.skill, w[a.att].sanity), Side(d.skill, w[a.defn].sanity), 0, 0, 0, draws, 0);
    if ex.Undecided? then Hit(w, OutOfDraws, [])
    else DefenderFollowUp(AttackerFollowUp(w, a, d, ex), a, d, ex)
  }

  /** A clash winner's follow-up: its character gains `gain` sanity, then attacks with its own action from coin `lost` on. */
  function Won(w: World, x: Action, lost: int, gain: int, draws: seq<int>): (h: Hit)
    requires x.att in w && x.defn in w
    ensures h.world.Keys == w.Keys
  {
    Strike(Raise(w, x.att, gain), x, lost, draws)
  }

  /** After a decided clash: the attacker, if it won, gains sanity and attacks. */
  function AttackerFollowUp(w: World, a: Action, d: Action, ex: Exchange): (h: Hit)
    requires ex.Decided? && a.att in w && a.defn in w
    ensures h.world.Keys == w.Keys
  {
    if ex.defLost == d.skill.coinnum then Won(w, a, ex.attLost, 10 + ex.rounds, ex.rest)
    else Hit(w, Resolved, ex.rest)
  }

  /** Then the defender, if it won, gains sanity and attacks with its own action. */
  function DefenderFollowUp(h: Hit, a: Action, d: Action, ex: Exchange): (h': Hit)
    requires ex.Decided? && d.att == a.defn && a.defn in h.world && d.defn in h.world
    ensures h'.world.Keys == h.world.Keys
  {
    if ex.attLost == a.skill.coinnum then Won(h.world, d, ex.defLost, 10 + ex.rounds, h.rest)
    else h
  }

  /** One resolution step: an action and the defender's own pending action, when one was found. */
  datatype Step = Step(attack: Action, defence: Option<Action>)
  {
    /** The characters the step may change: the attacker, its target and the target of the defender's action. */
    predicate Involves(c: Character)
    {
      c == attack.att || c == attack.defn || (defence.Some? && c == defence.value.defn)
    }
  }

  /** A step as resolution meets it: declared actions between characters of the roster. */
  predicate StepOk(st: Step, roster: set<Character>)
  {
    && st.attack.WellFormed() && st.attack.att in roster && st.attack.defn in roster
    && (st.defence.Some? ==>
          st.defence.value.WellFormed() && st.defence.value.att == st.attack.defn && st.defence.value.defn in roster)
  }

  /**
   * One step on a world: nothing against a dead defender; a clash when the
   * action is a clash, the defender's action was found and the defender is
   * not staggered; otherwise a one-sided attack with every coin.
   */
  function BattleOn(w: World, st: Step, draws: seq<int>): (h: Hit)
    requires StepOk(st, w.Keys)
    ensures h.world.Keys == w.Keys
  {
    var a := st.attack;
    if !Alive(w[a.defn].vitals) then Hit(w, Resolved, draws)
    else if a.actType.Clash? && st.defence.Some? && !Staggered(w[a.defn].vitals) then ClashOn(w, a, st.defence.value, draws)
    else Strike(w, a, 0, draws)
  }

  /** Every character's turn state keeps its invariant. */
  predicate WorldValid(w: World)
  {
    forall c :: c in w ==> ValidVitals(w[c].vitals, c.maxhp, c.maxstag)
  }

  /** A one-sided attack changes only its target's turn state. */
  lemma StrikeFrame(w: World, a: Action, coinLost: int, draws: seq<int>)
    requires a.att in w && a.defn in w
    ensures var h := Strike(w, a, coinLost, draws);
            && (forall c :: c in w && c != a.defn ==> h.world[c] == w[c])
            && h.world[a.defn].sanity == w[a.defn].sanity && h.world[a.defn].speed == w[a.defn].speed
  {
  }

  /** A one-sided attack with a non-negative skill keeps every invariant. */
  lemma StrikeKeepsValid(w: World, a: Action, coinLost: int, draws: seq<int>)
    requires a.att in w && a.defn in w && a.skill.Valid() && WorldValid(w)
    ensures WorldValid(Strike(w, a, coinLost, draws).world)
  {
    FlipsKeepValid(w[a.defn].vitals, a.defn.maxhp, a.defn.maxstag, a.defn.resistance, a.skill, w[a.att].sanity,
                   a.skill.baseval, coinLost, draws);
  }

  /** A clash changes only its three parties and no speed. */
  lemma ClashOnFrame(w: World, a: Action, d: Action, draws: seq<int>)
    requires a.skill.Valid() && d.skill.Valid() && d.att == a.defn
    requires a.att in w && a.defn in w && d.defn in w
    ensures var h := ClashOn(w, a, d, draws);
            && (forall c :: c in w && c != a.att && c != a.defn && c != d.defn ==> h.world[c] == w[c])
            && (forall c :: c in w ==> h.world[c].speed == w[c].speed)
  {
    var ex := Rounds(Side(a.skill, w[a.att].sanity), Side(d.skill, w[a.defn].sanity), 0, 0, 0, draws, 0);
    if ex.Decided? {
      var first := AttackerFollowUp(w, a, d, ex);
      assert ClashOn(w, a, d, draws) == DefenderFollowUp(first, a, d, ex);
      if ex.defLost == d.skill.coinnum {
        StrikeFrame(Raise(w, a.att, 10 + ex.rounds), a, ex.attLost, ex.rest);
      }
      if ex.attLost == a.skill.coinnum {
        StrikeFrame(Raise(first.world, a.defn, 10 + ex.rounds), d, ex.defLost, first.rest);
      }
    }
  }

  /** Raising sanity keeps every invariant. */
  lemma RaiseKeepsValid(w: World, c: Character, gain: int)
    requires c in w && WorldValid(w)
    ensures WorldValid(Raise(w, c, gain))
  {
  }

  /** A winner's follow-up with a non-negative skill keeps every invariant. */
  lemma WonKeepsValid(w: World, x: Action, lost: int, gain: int, draws: seq<int>)
    requires x.att in w && x.defn in w && x.skill.Valid() && WorldValid(w)
    ensures WorldValid(Won(w, x, lost, gain, draws).world)
  {
    RaiseKeepsValid(w, x.att, gain);
    StrikeKeepsValid(Raise(w, x.att, gain), x, lost, draws);
  }

  /** A clash with non-negative skills keeps every invariant. */
  lemma ClashOnKeepsValid(w: World, a: Action, d: Action, draws: seq<int>)
    requires a.skill.Valid() && d.skill.Valid() && d.att == a.defn
    requires a.att in w && a.defn in w && d.defn in w && WorldValid(w)
    ensures WorldValid(ClashOn(w, a, d, draws).world)
  {
    var ex := Rounds(Side(a.skill, w[a.att].sanity), Side(d.skill, w[a.defn].sanity), 0, 0, 0, draws, 0);
    if ex.Decided? {
      var first := AttackerFollowUp(w, a, d, ex);
      assert ClashOn(w, a, d, draws) == DefenderFollowUp(first, a, d, ex);
      AttackerFollowUpKeepsValid(w, a, d, ex);
      DefenderFollowUpKeepsValid(first, a, d, ex);
    }
  }

  /** The attacker's follow-up keeps every invariant. */
  lemma AttackerFollowUpKeepsValid(w: World, a: Action, d: Action, ex: Exchange)
    requires ex.Decided? && a.att in w && a.defn in w && a.skill.Valid() && WorldValid(w)
    ensures WorldValid(AttackerFollowUp(w, a, d, ex).world)
  {
    if ex.defLost == d.skill.coinnum {
      WonKeepsValid(w, a, ex.attLost, 10 + ex.rounds, ex.rest);
    }
  }

  /** The defender's follow-up keeps every invariant. */
  lemma DefenderFollowUpKeepsValid(h: Hit, a: Action, d: Action, ex: Exchange)
    requires ex.Decided? && d.att == a.defn && a.defn in h.world && d.defn in h.world
    requires d.skill.Valid() && WorldValid(h.world)
    ensures WorldValid(DefenderFollowUp(h, a, d, ex).world)
  {
    if ex.attLost == a.skill.coinnum {
      WonKeepsValid(h.world, d, ex.defLost, 10 + ex.rounds, h.rest);
    }
  }

  /**
   * The clash's sanity gains: each winner gains `10 + rounds`, and a loser's
   * sanity is kept; an undecided clash changes nothing.
   */
  lemma ClashSanity(w: World, a: Action, d: Action, draws: seq<int>)
    requires a.WellFormed() && d.WellFormed() && d.att == a.defn
    requires a.att in w && a.defn in w && d.defn in w
    ensures var ex := Rounds(Side(a.skill, w[a.att].sanity), Side(d.skill, w[a.defn].sanity), 0, 0, 0, draws, 0);
            var h := ClashOn(w, a, d, draws);
            && (ex.Undecided? ==> h == Hit(w, OutOfDraws, []))
            && (ex.Decided? ==>
                  && h.world[a.att].sanity == w[a.att].sanity + (if ex.defLost == d.skill.coinnum then 10 + ex.rounds else 0)
                  && h.world[a.defn].sanity == w[a.defn].sanity + (if ex.attLost == a.skill.coinnum then 10 + ex.rounds else 0))
  {
    var ex := Rounds(Side(a.skill, w[a.att].sanity), Side(d.skill, w[a.defn].sanity), 0, 0, 0, draws, 0);
    if ex.Decided? {
      var gain := 10 + ex.rounds;
      var first := AttackerFollowUp(w, a, d, ex);
      assert ClashOn(w, a, d, draws) == DefenderFollowUp(first, a, d, ex);
      if ex.defLost == d.skill.coinnum {
        StrikeFrame(Raise(w, a.att, gain), a, ex.attLost, ex.rest);
      }
      assert first.world[a.att].sanity == w[a.att].sanity + (if ex.defLost == d.skill.coinnum then gain else 0);
      assert first.world[a.defn].sanity == w[a.defn].sanity;
      if ex.attLost == a.skill.coinnum {
        StrikeFrame(Raise(first.world, a.defn, gain), d, ex.defLost, first.rest);
      }
    }
  }

  /** Two coinless skills play no round: both sides win, gain 10 sanity, and no one is hit. */
  lemma ClashNoCoins(w: World, a: Action, d: Action, draws: seq<int>)
    requires a.WellFormed() && d.WellFormed() && d.att == a.defn
    requires a.att in w && a.defn in w && d.defn in w
    requires a.skill.coinnum == 0 && d.skill.coinnum == 0
    ensures ClashOn(w, a, d, draws) == Hit(Raise(Raise(w, a.att, 10), a.defn, 10), Resolved, draws)
  {
    NoCoinsNoRounds(Side(a.skill, w[a.att].sanity), Side(d.skill, w[a.defn].sanity), draws);
    var first := Raise(w, a.att, 10);
    assert Strike(first, a, 0, draws) == Hit(first, Resolved, draws);
    var second := Raise(first, a.defn, 10);
    assert Strike(second, d, 0, draws) == Hit(second, Resolved, draws);
  }

  /**
   * Two sides with sanity 50 or more and skills of equal full value never
   * decide their clash: whatever the draws, the model reports `OutOfDraws`
   * and changes no one.
   */
  lemma ClashTieNeverDecided(w: World, a: Action, d: Action, draws: seq<int>)
    requires a.WellFormed() && d.WellFormed() && d.att == a.defn
    requires a.att in w && a.defn in w && d.defn in w
    requires w[a.att].sanity >= 50 && w[a.defn].sanity >= 50
    requires a.skill.coinnum > 0 && d.skill.coinnum > 0
    requires a.skill.baseval + a.skill.coinnum * a.skill.coinval == d.skill.baseval + d.skill.coinnum * d.skill.coinval
    requires forall i :: 0 <= i < |draws| ==> 0 <= draws[i] < 100
    ensures ClashOn(w, a, d, draws) == Hit(w, OutOfDraws, [])
  {
    EqualHeadsNeverDecide(Side(a.skill, w[a.att].sanity), Side(d.skill, w[a.defn].sanity), 0, draws, 0);
  }

  /** A step changes only the characters it involves and no speed. */
  lemma BattleOnFrame(w: World, st: Step, draws: seq<int>)
    requires StepOk(st, w.Keys)
    ensures forall c :: c in w && !st.Involves(c) ==> BattleOn(w, st, draws).world[c] == w[c]
    ensures forall c :: c in w ==> BattleOn(w, st, draws).world[c].speed == w[c].speed
  {
    var a := st.attack;
    if Alive(w[a.defn].vitals) && a.actType.Clash? && st.defence.Some? && !Staggered(w[a.defn].vitals) {
      ClashOnFrame(w, a, st.defence.value, draws);
    } else if Alive(w[a.defn].vitals) {
      StrikeFrame(w, a, 0, draws);
    }
  }

  /** A step keeps every invariant. */
  lemma BattleOnKeepsValid(w: World, st: Step, draws: seq<int>)
    requires StepOk(st, w.Keys) && WorldValid(w)
    ensures WorldValid(BattleOn(w, st, draws).world)
  {
    var a := st.attack;
    if Alive(w[a.defn].vitals) && a.actType.Clash? && st.defence.Some? && !Staggered(w[a.defn].vitals) {
      ClashOnKeepsValid(w, a, st.defence.value, draws);
    } else if Alive(w[a.defn].vitals) {
      StrikeKeepsValid(w, a, 0, draws);
    }
  }

  /** When only the turn state of `c` changed, the snapshot changed only in `c`'s vitals. */
  twostate lemma SnapshotVitals(roster: set<Character>, new c: Character)
    requires c in roster && c.sanity == old(c.sanity) && c.speed == old(c.speed)
    requires forall x :: x in roster && x != c ==> unchanged(x)
    ensures Snapshot(roster) == old(Snapshot(roster))[c := old(Snapshot(roster))[c].(vitals := c.State())]
  {
    var after := old(Snapshot(roster))[c := old(Snapshot(roster))[c].(vitals := c.State())];
    forall x | x in roster
      ensures Snapshot(roster)[x] == after[x]
    {
    }
  }

  /**
   * The one-sided attack: coins from `coinLost` on, damage applied coin by
   * coin; the objective's death ends the game. On the roster it is `Strike`.
   */
  method OneSideAttack(a: Action, coinLost: int, draws: seq<int>, ghost roster: set<Character>) returns (out: Outcome, rest: seq<int>)
    requires a.WellFormed() && coinLost >= 0 && a.att in roster && a.defn in roster
    modifies a.defn
    ensures var h := Strike(old(Snapshot(roster)), a, coinLost, draws);
            Snapshot(roster) == h.world && out == h.out && rest == h.rest
    ensures old(a.defn.Valid()) ==> a.defn.Valid()
    ensures out.ObjectiveDestroyed? ==> a.defn.isObjective && !a.defn.IsAlive()
  {
    var coinCount := a.skill.coinnum;
    var coinVal := a.skill.coinval;
    var coinBase := a.skill.baseval;
    var dmgVal := coinBase;
    var coinNum := coinLost;
    ghost var before := Snapshot(roster);
    ghost var target := Flips(a.defn.State(), a.defn.resistance, a.skill, a.att.sanity, coinBase, coinLost, draws);
    ghost var down := false;
    if a.defn.Valid() {
      FlipsKeepValid(a.defn.State(), a.defn.maxhp, a.defn.maxstag, a.defn.resistance, a.skill, a.att.sanity, coinBase, coinLost, draws);
    }
    rest := draws;
    out := Resolved;
    while coinCount > coinNum
      invariant a.att.sanity == old(a.att.sanity)
      invariant a.defn.sanity == old(a.defn.sanity) && a.defn.speed == old(a.defn.speed)
      invariant dmgVal >= 0 && coinNum >= coinLost
      invariant !down ==> coinCount == a.skill.coinnum
      invariant !down ==> Flips(a.defn.State(), a.defn.resistance, a.skill, a.att.sanity, dmgVal, coinNum, rest) == target
      invariant down ==> coinCount == 0 && coinNum >= 1 && !a.defn.isObjective
      invariant down ==> target == Volley(a.defn.State(), rest, DefenderDown)
      invariant out.Resolved?
      decreases coinCount - coinNum
    {
      coinNum := coinNum + 1;
      var ratio := a.defn.FindMult(a.skill.skillType);
      if rest == [] {
        out := OutOfDraws;
        break;
      }
      if a.att.CoinToss(rest[0]) {
        dmgVal := dmgVal + coinVal;
      }
      rest := rest[1..];
      var damage := Scaled(dmgVal, ratio);
      a.defn.TakeDamage(damage);
      if !a.defn.IsAlive() {
        coinCount := 0;
        down := true;
        if a.defn.isObjective {
          out := ObjectiveDestroyed;
          break;
        }
      }
    }
    assert a.defn.State() == target.after && rest == target.rest && out == Verdict(target.stop, a.defn.isObjective);
    SnapshotVitals(roster, a.defn);
  }

  /** The clash winner's sanity gain; on the roster it is `Raise`. */
  method RestoreSanity(c: Character, gain: int, ghost roster: set<Character>)
    requires c in roster
    modifies c
    ensures Snapshot(roster) == Raise(old(Snapshot(roster)), c, gain)
    ensures c.State() == old(c.State())
  {
    c.sanity := c.sanity + gain;
    forall x | x in roster
      ensures Snapshot(roster)[x] == Raise(old(Snapshot(roster)), c, gain)[x]
    {
    }
  }

  /**
   * The clash winner's follow-up: its character gains `gain` sanity, then
   * attacks one-sided with its own action, skipping the `lost` coins.
   */
  method Win(x: Action, lost: nat, gain: int, draws: seq<int>, ghost roster: set<Character>) returns (out: Outcome, rest: seq<int>)
    requires x.WellFormed() && x.att in roster && x.defn in roster
    modifies x.att, x.defn
    ensures var h := Won(old(Snapshot(roster)), x, lost, gain, draws);
            Snapshot(roster) == h.world && out == h.out && rest == h.rest
    ensures old(x.att.Valid()) ==> x.att.Valid()
    ensures old(x.defn.Valid()) ==> x.defn.Valid()
    ensures out.ObjectiveDestroyed? ==> x.defn.isObjective && !x.defn.IsAlive()
  {
    RestoreSanity(x.att, gain, roster);
    out, rest := OneSideAttack(x, lost, draws, roster);
  }

  /**
   * After a decided clash, each winner's follow-up: the attacker's first,
   * then the defender's.
   */
  method FollowUps(a: Action, d: Action, ex: Exchange, ghost roster: set<Character>) returns (out: Outcome, rest: seq<int>)
    requires ex.Decided? && a.WellFormed() && d.WellFormed() && d.att == a.defn
    requires a.att in roster && a.defn in roster && d.defn in roster
    modifies a.att, a.defn, d.defn
    ensures var h := DefenderFollowUp(AttackerFollowUp(old(Snapshot(roster)), a, d, ex), a, d, ex);
            Snapshot(roster) == h.world && out == h.out && rest == h.rest
    ensures old(a.att.Valid()) ==> a.att.Valid()
    ensures old(a.defn.Valid()) ==> a.defn.Valid()
    ensures old(d.defn.Valid()) ==> d.defn.Valid()
    ensures out.ObjectiveDestroyed? ==>
              (a.defn.isObjective && !a.defn.IsAlive()) || (d.defn.isObjective && !d.defn.IsAlive())
  {
    ghost var w := Snapshot(roster);
    out, rest := Resolved, ex.rest;
    if d.skill.coinnum == ex.defLost {
      out, rest := Win(a, ex.attLost, 10 + ex.rounds, rest, roster);
    }
    ghost var first := AttackerFollowUp(w, a, d, ex);
    assert Snapshot(roster) == first.world && out == first.out && rest == first.rest;
    out, rest := DefenderWins(a, d, ex, out, rest, roster, first);
  }

  /** The defender's follow-up, from where the attacker's left the roster. */
  method DefenderWins(a: Action, d: Action, ex: Exchange, out0: Outcome, rest0: seq<int>, ghost roster: set<Character>,
                      ghost first: Hit) returns (out: Outcome, rest: seq<int>)
    requires ex.Decided? && d.WellFormed() && d.att == a.defn && d.att in roster && d.defn in roster
    requires Snapshot(roster) == first.world && out0 == first.out && rest0 == first.rest
    modifies d.att, d.defn
    ensures var h := DefenderFollowUp(first, a, d, ex);
            Snapshot(roster) == h.world && out == h.out && rest == h.rest
    ensures old(d.att.Valid()) ==> d.att.Valid()
    ensures old(d.defn.Valid()) ==> d.defn.Valid()
    ensures out.ObjectiveDestroyed? ==> out0.ObjectiveDestroyed? || (d.defn.isObjective && !d.defn.IsAlive())
  {
    out, rest := out0, rest0;
    if a.skill.coinnum == ex.attLost {
      out, rest := Win(d, ex.defLost, 10 + ex.rounds, rest, roster);
    }
  }

  /**
   * The clash between `a` and the defender's own action `d`. On the roster
   * it is `ClashOn`.
   */
  method Clash(a: Action, d: Action, draws: seq<int>, ghost roster: set<Character>) returns (out: Outcome, rest: seq<int>)
    requires a.WellFormed() && d.WellFormed() && d.att == a.defn
    requires a.att in roster && a.defn in roster && d.defn in roster
    modifies a.att, a.defn, d.defn
    ensures var h := ClashOn(old(Snapshot(roster)), a, d, draws);
            Snapshot(roster) == h.world && out == h.out && rest == h.rest
    ensures old(a.att.Valid()) ==> a.att.Valid()
    ensures old(a.defn.Valid()) ==> a.defn.Valid()
    ensures old(d.defn.Valid()) ==> d.defn.Valid()
    ensures out.ObjectiveDestroyed? ==>
              (a.defn.isObjective && !a.defn.IsAlive()) || (d.defn.isObjective && !d.defn.IsAlive())
  {
    ghost var w := Snapshot(roster);
    var attSide := Side(a.skill, a.att.sanity);
    var defSide := Side(d.skill, a.defn.sanity);
    assert attSide == Side(a.skill, w[a.att].sanity) && defSide == Side(d.skill, w[a.defn].sanity);
    var ex := ClashRounds(attSide, defSide, draws);
    if ex.Undecided? {
      return OutOfDraws, [];
    }
    out, rest := FollowUps(a, d, ex, roster);
  }

  /** A clash happens only for a clash action whose defender declared an action and is not staggered. */
  predicate IsClash(a: Action, d: Option<Action>)
    reads a.defn
  {
    a.actType.Clash? && d.Some? && !a.defn.IsStagger()
  }

  /**
   * Resolves one action against the defender's own action, if one was
   * taken out of the list. On the roster it is `BattleOn`.
   */
  method Battle(a: Action, d: Option<Action>, draws: seq<int>, ghost roster: set<Character>) returns (out: Outcome, rest: seq<int>)
    requires StepOk(Step(a, d), roster)
    modifies a.att, a.defn, if d.Some? then {d.value.defn} else {}
    ensures var h := BattleOn(old(Snapshot(roster)), Step(a, d), draws);
            Snapshot(roster) == h.world && out == h.out && rest == h.rest
    ensures old(a.att.Valid()) ==> a.att.Valid()
    ensures old(a.defn.Valid()) ==> a.defn.Valid()
    ensures d.Some? && old(d.value.defn.Valid()) ==> d.value.defn.Valid()
    ensures out.ObjectiveDestroyed? ==>
              (a.defn.isObjective && !a.defn.IsAlive()) || (d.Some? && d.value.defn.isObjective && !d.value.defn.IsAlive())
  {
    if !a.defn.IsAlive() {
      return Resolved, draws;
    }
    if IsClash(a, d) {
      out, rest := Clash(a, d.value, draws, roster);
      return;
    }
    out, rest := OneSideAttack(a, 0, draws, roster);
  }
}
