/**
 * The game manager: two teams, the shared list of declared actions and the
 * act counter; it starts each act and resolves the declared actions.
 */
module Game {
  import opened Options
  import opened Skills
  import opened Characters
  import opened Actions
  import opened Combat

  /** A team name and its characters; the objective is one of them. */
  datatype Team = Team(name: string, characters: seq<Character>)

  /** No character appears twice. */
  predicate Distinct(s: seq<Character>)
  {
    forall i, j :: 0 <= i < j < |s| ==> s[i] != s[j]
  }

  /** Two teams with no character in common make one roster without repeats. */
  lemma DistinctJoin(p: seq<Character>, e: seq<Character>)
    requires Distinct(p) && Distinct(e)
    requires forall c :: c in p ==> c !in e
    ensures Distinct(p + e)
  {
    var s := p + e;
    forall i, j | 0 <= i < j < |s|
      ensures s[i] != s[j]
    {
      if i < |p| && |p| <= j {
        assert s[i] in p && s[j] == e[j - |p|];
      }
    }
  }

  /** Two teams that share no character and repeat none. */
  predicate Separate(p: seq<Character>, e: seq<Character>)
  {
    Distinct(p) && Distinct(e) && forall c :: c in p ==> c !in e
  }

  /** Names identify characters, except that the objectives share theirs. */
  predicate NamesOk(cs: seq<Character>)
  {
    forall c, d :: c in cs && d in cs && c != d && c.name == d.name ==> c.isObjective && d.isObjective
  }

  /** Every skill of the roster has non-negative values. */
  predicate SkillsOk(cs: seq<Character>)
  {
    forall c, s :: c in cs && s in c.skills ==> s.Valid()
  }

  /** Every character of the roster keeps its invariant. */
  ghost predicate AllValid(cs: seq<Character>)
    reads set c | c in cs
  {
    forall c :: c in cs ==> c.Valid()
  }

  /** An action as declaration builds it: a non-objective of the roster against another one of the roster. */
  predicate Declared(cs: seq<Character>, a: Action)
  {
    a.WellFormed() && a.att in cs && a.defn in cs && !a.att.isObjective
  }

  /** A pending list of declared actions, at most one per attacker name. */
  predicate ActionsOk(cs: seq<Character>, s: seq<Action>)
  {
    (forall a :: a in s ==> Declared(cs, a)) && UniqueAtts(s)
  }

  /** A non-objective's name picks out that very character. */
  lemma SameName(cs: seq<Character>, c: Character, d: Character)
    requires NamesOk(cs) && c in cs && d in cs && c.name == d.name && !c.isObjective
    ensures c == d
  {
  }

  /** Popping the front keeps a pending list well-formed and yields a declared action. */
  lemma PopDeclared(cs: seq<Character>, s: seq<Action>)
    requires ActionsOk(cs, s) && s != []
    ensures Declared(cs, s[0]) && ActionsOk(cs, s[1..])
  {
    assert s[0] in s;
    forall a | a in s[1..]
      ensures Declared(cs, a)
    {
      assert a in s;
    }
  }

  /** Removing one entry keeps a pending list well-formed and yields a declared action. */
  lemma RemoveDeclared(cs: seq<Character>, s: seq<Action>, i: nat)
    requires ActionsOk(cs, s) && i < |s|
    ensures Declared(cs, s[i]) && ActionsOk(cs, s[..i] + s[i + 1..])
  {
    assert s[i] in s;
    var r := s[..i] + s[i + 1..];
    forall a | a in r
      ensures Declared(cs, a)
    {
      assert a in s[..i] || a in s[i + 1..];
    }
    forall p, q | 0 <= p < q < |r|
      ensures r[p].att.name != r[q].att.name
    {
      var p' := if p < i then p else p + 1;
      var q' := if q < i then q else q + 1;
      assert r[p] == s[p'] && r[q] == s[q'];
    }
  }

  /** Declaring a declared action keeps a pending list well-formed. */
  lemma AddDeclared(cs: seq<Character>, s: seq<Action>, a: Action)
    requires ActionsOk(cs, s) && Declared(cs, a)
    ensures ActionsOk(cs, Added(s, a))
  {
    AddedMembers(s, a);
    AddedUnique(s, a);
  }

  /** What taking the next action out of a pending list yields: the step to resolve and the list left. */
  datatype Popped = Popped(step: Step, rest: seq<Action>)

  /** The actions a step took out of the list. */
  function Taken(st: Step): seq<Action>
  {
    [st.attack] + if st.defence.Some? then [st.defence.value] else []
  }

  /**
   * Takes the fastest action off the front and, when it is a clash action,
   * also the defender's own pending action, found by the defender's name.
   */
  function Pop(s: seq<Action>): (p: Popped)
    requires s != []
    ensures p.step.attack == s[0]
    ensures |p.rest| < |s|
  {
    var pending := s[1..];
    var i := AttIndex(pending, s[0].defn.name);
    if s[0].actType.Clash? && i < |pending| then
      Popped(Step(s[0], Some(pending[i])), pending[..i] + pending[i + 1..])
    else
      Popped(Step(s[0], None), pending)
  }

  /** A step takes its actions out of the list and leaves every other one. */
  lemma PopTakes(s: seq<Action>)
    requires s != []
    ensures multiset(s) == multiset(Taken(Pop(s).step)) + multiset(Pop(s).rest)
  {
    var pending := s[1..];
    var i := AttIndex(pending, s[0].defn.name);
    assert s == [s[0]] + pending;
    if s[0].actType.Clash? && i < |pending| {
      assert pending == pending[..i] + [pending[i]] + pending[i + 1..];
    }
  }

  /** The steps in which a pending list is resolved, one `Pop` after another. */
  function Schedule(s: seq<Action>): seq<Step>
    decreases |s|
  {
    if s == [] then [] else [Pop(s).step] + Schedule(Pop(s).rest)
  }

  /** The actions the steps took, in order. */
  function AllTaken(steps: seq<Step>): seq<Action>
  {
    if steps == [] then [] else Taken(steps[0]) + AllTaken(steps[1..])
  }

  /** The schedule takes every pending action exactly once. */
  lemma {:induction false} ScheduleUsesAll(s: seq<Action>)
    ensures multiset(AllTaken(Schedule(s))) == multiset(s)
    decreases |s|
  {
    if s != [] {
      var p := Pop(s);
      PopTakes(s);
      ScheduleUsesAll(p.rest);
      assert ([p.step] + Schedule(p.rest))[1..] == Schedule(p.rest);
    }
  }

  /** The list left after `n` steps. */
  function After(s: seq<Action>, n: nat): (r: seq<Action>)
    ensures |r| <= |s|
    decreases n
  {
    if n == 0 || s == [] then s else After(Pop(s).rest, n - 1)
  }

  /** Each step removes its actions from what the previous steps left. */
  lemma {:induction false} AfterNext(s: seq<Action>, n: nat)
    requires After(s, n) != []
    ensures After(s, n + 1) == Pop(After(s, n)).rest
    decreases n
  {
    if n > 0 {
      assert s != [];
      var r := Pop(s).rest;
      assert After(s, n + 1) == After(r, n) && After(s, n) == After(r, n - 1);
      AfterNext(r, n - 1);
    }
  }

  /** Taking the next step from what the earlier steps left extends them by the schedule's next step. */
  lemma ScheduleStep(s: seq<Action>, steps: seq<Step>, pending: seq<Action>)
    requires pending != [] && pending == After(s, |steps|)
    requires Schedule(s) == steps + Schedule(pending)
    ensures Schedule(s) == (steps + [Pop(pending).step]) + Schedule(Pop(pending).rest)
    ensures After(s, |steps| + 1) == Pop(pending).rest
  {
    AfterNext(s, |steps|);
    ScheduleFront(pending);
    AppendOne(steps, Pop(pending).step, Schedule(Pop(pending).rest));
  }

  /** The first step of a schedule is the first `Pop`. */
  lemma ScheduleFront(s: seq<Action>)
    requires s != []
    ensures Schedule(s) == [Pop(s).step] + Schedule(Pop(s).rest)
  {
  }

  /** Appending one step and then the rest is appending both. */
  lemma AppendOne(steps: seq<Step>, st: Step, later: seq<Step>)
    ensures steps + ([st] + later) == (steps + [st]) + later
  {
  }

  /** A step taken from a well-formed pending list is a step between characters of the roster, and the list left stays well-formed. */
  lemma PopOk(cs: seq<Character>, s: seq<Action>)
    requires NamesOk(cs) && ActionsOk(cs, s) && s != []
    ensures StepOk(Pop(s).step, set c | c in cs) && ActionsOk(cs, Pop(s).rest)
  {
    PopDeclared(cs, s);
    var pending := s[1..];
    var i := AttIndex(pending, s[0].defn.name);
    if s[0].actType.Clash? && i < |pending| {
      RemoveDeclared(cs, pending, i);
      SameName(cs, pending[i].att, s[0].defn);
    }
  }

  /** Every step resolution meets is between characters of the roster. */
  predicate StepsOk(steps: seq<Step>, roster: set<Character>)
  {
    forall k :: 0 <= k < |steps| ==> StepOk(steps[k], roster)
  }

  /** Both parts of well-formed steps are well-formed. */
  lemma StepsOkSplit(p: seq<Step>, q: seq<Step>, roster: set<Character>)
    requires StepsOk(p + q, roster)
    ensures StepsOk(p, roster) && StepsOk(q, roster)
  {
    forall k | 0 <= k < |p|
      ensures StepOk(p[k], roster)
    {
      assert p[k] == (p + q)[k];
    }
    forall k | 0 <= k < |q|
      ensures StepOk(q[k], roster)
    {
      assert q[k] == (p + q)[|p| + k];
    }
  }

  /** The whole schedule of a well-formed pending list is between characters of the roster. */
  lemma {:induction false} ScheduleOk(cs: seq<Character>, s: seq<Action>)
    requires NamesOk(cs) && ActionsOk(cs, s)
    ensures StepsOk(Schedule(s), set c | c in cs)
    decreases |s|
  {
    if s != [] {
      PopOk(cs, s);
      ScheduleOk(cs, Pop(s).rest);
    }
  }

  /** A world after some steps, with the outcome, the unused draws and the number of steps taken. */
  datatype Run = Run(world: World, out: Outcome, rest: seq<int>, done: nat)

  /**
   * The steps resolved in order on a world; the first step that does not
   * end `Resolved` (the objective destroyed, or the draws gone) is the last.
   */
  function RunSteps(w: World, steps: seq<Step>, draws: seq<int>): (r: Run)
    requires StepsOk(steps, w.Keys)
    ensures r.world.Keys == w.Keys
    ensures r.done <= |steps|
    ensures r.out.Resolved? ==> r.done == |steps|
    ensures !r.out.Resolved? ==> r.done > 0
    decreases |steps|
  {
    if steps == [] then Run(w, Resolved, draws, 0)
    else
      var h := BattleOn(w, steps[0], draws);
      if !h.out.Resolved? then Run(h.world, h.out, h.rest, 1)
      else
        var r := RunSteps(h.world, steps[1..], h.rest);
        Run(r.world, r.out, r.rest, r.done + 1)
  }

  /** While every step so far resolved, one more step continues from where they left the world. */
  lemma {:induction false} RunSnoc(w: World, steps: seq<Step>, st: Step, draws: seq<int>)
    requires StepsOk(steps, w.Keys) && StepOk(st, w.Keys)
    requires RunSteps(w, steps, draws).out.Resolved?
    ensures StepsOk(steps + [st], w.Keys)
    ensures var r := RunSteps(w, steps, draws);
            var h := BattleOn(r.world, st, r.rest);
            RunSteps(w, steps + [st], draws) == Run(h.world, h.out, h.rest, |steps| + 1)
    decreases |steps|
  {
    assert forall k :: 0 <= k < |steps| ==> (steps + [st])[k] == steps[k];
    if steps != [] {
      var h := BattleOn(w, steps[0], draws);
      assert (steps + [st])[1..] == steps[1..] + [st];
      RunSnoc(h.world, steps[1..], st, h.rest);
    }
  }

  /** Once a step ends the resolution, later steps change nothing. */
  lemma {:induction false} RunStops(w: World, p: seq<Step>, q: seq<Step>, draws: seq<int>)
    requires StepsOk(p, w.Keys) && StepsOk(q, w.Keys)
    requires !RunSteps(w, p, draws).out.Resolved?
    ensures StepsOk(p + q, w.Keys)
    ensures RunSteps(w, p + q, draws) == RunSteps(w, p, draws)
    decreases |p|
  {
    assert forall k :: 0 <= k < |p + q| ==> (p + q)[k] == if k < |p| then p[k] else q[k - |p|];
    var h := BattleOn(w, p[0], draws);
    if h.out.Resolved? {
      assert (p + q)[1..] == p[1..] + q;
      RunStops(h.world, p[1..], q, h.rest);
    }
  }

  /** A character that takes part in none of the steps. */
  predicate Bystander(steps: seq<Step>, c: Character)
  {
    forall k :: 0 <= k < |steps| ==> !steps[k].Involves(c)
  }

  /** Resolution changes no speed, and nothing of a character that takes part in no step. */
  lemma {:induction false} RunFrame(w: World, steps: seq<Step>, draws: seq<int>)
    requires StepsOk(steps, w.Keys)
    ensures forall c :: c in w && Bystander(steps, c) ==> RunSteps(w, steps, draws).world[c] == w[c]
    ensures forall c :: c in w ==> RunSteps(w, steps, draws).world[c].speed == w[c].speed
    decreases |steps|
  {
    if steps != [] {
      var h := BattleOn(w, steps[0], draws);
      BattleOnFrame(w, steps[0], draws);
      if h.out.Resolved? {
        RunFrame(h.world, steps[1..], h.rest);
        forall c | c in w && Bystander(steps, c)
          ensures Bystander(steps[1..], c)
        {
          assert forall k :: 0 <= k < |steps| - 1 ==> steps[1..][k] == steps[k + 1];
        }
      }
    }
  }

  /** Resolution keeps every character's invariant. */
  lemma {:induction false} RunKeepsValid(w: World, steps: seq<Step>, draws: seq<int>)
    requires StepsOk(steps, w.Keys) && WorldValid(w)
    ensures WorldValid(RunSteps(w, steps, draws).world)
    decreases |steps|
  {
    if steps != [] {
      var h := BattleOn(w, steps[0], draws);
      BattleOnKeepsValid(w, steps[0], draws);
      if h.out.Resolved? {
        RunKeepsValid(h.world, steps[1..], h.rest);
      }
    }
  }

  /** The roster's snapshot keeps every invariant exactly when every character does. */
  lemma SnapshotValid(roster: set<Character>)
    ensures WorldValid(Snapshot(roster)) <==> forall c :: c in roster ==> c.Valid()
  {
  }

  /** A step that changes no character leaves the roster's snapshot as it was. */
  twostate lemma SnapshotSame(roster: set<Character>)
    requires forall c :: c in roster ==> unchanged(c)
    ensures Snapshot(roster) == old(Snapshot(roster))
  {
  }

  class GameManager {
    const actionList: ActionList
    var player: Team
    var enemy: Team
    var act: int

    /** Both teams' characters, the side to move first. */
    function AllCharacters(): seq<Character>
      reads this
    {
      player.characters + enemy.characters
    }

    ghost function Roster(): set<Character>
      reads this
    {
      set c | c in AllCharacters()
    }

    /**
     * What the game's setup and declaration keep: two teams without a shared
     * or repeated character; names unique except that both objectives share
     * theirs; every character's invariant and non-negative skills; and every
     * pending action a declared one, at most one per attacker name.
     */
    ghost predicate Valid()
      reads this, actionList, Roster()
    {
      var cs := AllCharacters();
      && Separate(player.characters, enemy.characters)
      && NamesOk(cs) && SkillsOk(cs) && AllValid(cs)
      && ActionsOk(cs, actionList.actions)
    }

    constructor (actionList: ActionList, team1: Team, team2: Team)
      requires Separate(team1.characters, team2.characters)
      requires var cs := team1.characters + team2.characters;
               NamesOk(cs) && SkillsOk(cs) && AllValid(cs) && ActionsOk(cs, actionList.actions)
      ensures this.actionList == actionList && player == team1 && enemy == team2 && act == 0
      ensures Valid()
    {
      this.actionList := actionList;
      player := team1;
      enemy := team2;
      act := 0;
    }

    /** The other player moves next. */
    method ChangeSide()
      modifies this
      ensures player == old(enemy) && enemy == old(player) && act == old(act)
      ensures Roster() == old(Roster())
      ensures old(Valid()) ==> Valid()
    {
      player, enemy := enemy, player;
    }

    /**
     * Starts the next act: the counter goes up and every character, the
     * mover's team first, takes its turn start with its own speed roll.
     */
    method NextTurn(rolls: seq<int>)
      requires Valid()
      requires |rolls| == |AllCharacters()|
      requires forall i :: 0 <= i < |rolls| && !AllCharacters()[i].isObjective ==>
                 AllCharacters()[i].spmin <= rolls[i] <= AllCharacters()[i].spmax
      modifies this, Roster()
      ensures act == old(act) + 1 && player == old(player) && enemy == old(enemy)
      ensures forall i :: 0 <= i < |rolls| ==> Ticked(AllCharacters()[i], rolls[i])
      ensures Valid()
    {
      act := act + 1;
      var cs := player.characters + enemy.characters;
      DistinctJoin(player.characters, enemy.characters);
      for i := 0 to |cs|
        invariant act == old(act) + 1 && player == old(player) && enemy == old(enemy)
        invariant forall k :: 0 <= k < i ==> Ticked(cs[k], rolls[k])
        invariant forall k :: i <= k < |cs| ==> unchanged(cs[k])
        invariant forall c :: c in cs ==> c.Valid()
      {
        cs[i].NextTurn(rolls[i]);
      }
    }

    /**
     * Declares an action from the mover's character in `slot` with its
     * skill number `skillNo` (1 to 3) against the other team's character in
     * `targetSlot`; `choice` is the player's answer when a clash is offered.
     */
    method Declare(slot: nat, skillNo: int, targetSlot: nat, choice: ActionType)
      requires Valid()
      requires slot < |player.characters| && targetSlot < |enemy.characters|
      requires !player.characters[slot].isObjective && 1 <= skillNo <= |player.characters[slot].skills|
      modifies actionList
      ensures var att := player.characters[slot];
              var targ := enemy.characters[targetSlot];
              actionList.actions
              == Added(old(actionList.actions), Action(att.speed, att.skills[skillNo - 1], att, targ, att.Target(targ, choice)))
      ensures Valid()
    {
      var attacker := player.characters[slot];
      var target := enemy.characters[targetSlot];
      var clashOpt := attacker.Target(target, choice);
      var skill := attacker.skills[skillNo - 1];
      var action := Action(attacker.speed, skill, attacker, target, clashOpt);
      assert attacker in AllCharacters() && target in AllCharacters();
      AddDeclared(AllCharacters(), actionList.actions, action);
      actionList.AddAction(action);
    }

    /**
     * Takes the fastest action out of the list and, for a clash action, the
     * defender's own pending action, found by the defender's name.
     */
    method TakeNext() returns (attack: Action, defence: Option<Action>)
      requires Valid() && actionList.actions != []
      modifies actionList
      ensures Valid()
      ensures attack == old(actionList.actions)[0] && Declared(AllCharacters(), attack)
      ensures attack.actType.OneSide? ==> defence.None? && actionList.actions == old(actionList.actions)[1..]
      ensures attack.actType.Clash? ==>
                var pending := old(actionList.actions)[1..];
                var i := AttIndex(pending, attack.defn.name);
                if i < |pending|
                then defence == Some(pending[i]) && actionList.actions == pending[..i] + pending[i + 1..]
                else defence.None? && actionList.actions == pending
      ensures defence.Some? ==> Declared(AllCharacters(), defence.value) && defence.value.att == attack.defn
      ensures |actionList.actions| == old(|actionList.actions|) - if defence.Some? then 2 else 1
      ensures Pop(old(actionList.actions)) == Popped(Step(attack, defence), actionList.actions)
    {
      var cs := AllCharacters();
      PopDeclared(cs, actionList.actions);
      attack := actionList.GetTopAndRemove();
      defence := None;
      if attack.actType.Clash? {
        ghost var pending := actionList.actions;
        defence := actionList.FindAndRemoveByAttacker(attack.defn);
        if defence.Some? {
          RemoveDeclared(cs, pending, AttIndex(pending, attack.defn.name));
          SameName(cs, defence.value.att, attack.defn);
        }
      }
    }

    /**
     * Resolves one step between characters of the roster: the battle of the
     * action, against the defender's own action when one was taken.
     */
    method Play(attack: Action, defence: Option<Action>, draws: seq<int>) returns (out: Outcome, rest: seq<int>)
      requires Valid() && StepOk(Step(attack, defence), Roster())
      modifies Roster()
      ensures Valid()
      ensures var h := BattleOn(old(Snapshot(Roster())), Step(attack, defence), draws);
              Snapshot(Roster()) == h.world && out == h.out && rest == h.rest
      ensures out.ObjectiveDestroyed? ==> exists c :: c in Roster() && c.isObjective && !c.IsAlive()
    {
      ghost var w := Snapshot(Roster());
      SnapshotValid(Roster());
      out, rest := Battle(attack, defence, draws, Roster());
      BattleOnKeepsValid(w, Step(attack, defence), draws);
      SnapshotValid(Roster());
      if out.ObjectiveDestroyed? {
        if attack.defn.isObjective && !attack.defn.IsAlive() {
          assert attack.defn in Roster();
        } else {
          assert defence.value.defn in Roster();
        }
      }
    }

    /**
     * One turn of resolution: takes the next step out of the list and
     * resolves it.
     */
    method ResolveNext(draws: seq<int>) returns (out: Outcome, rest: seq<int>, ghost st: Step)
      requires Valid() && actionList.actions != []
      modifies actionList, Roster()
      ensures Valid()
      ensures Pop(old(actionList.actions)) == Popped(st, actionList.actions)
      ensures StepOk(st, Roster())
      ensures var h := BattleOn(old(Snapshot(Roster())), st, draws);
              Snapshot(Roster()) == h.world && out == h.out && rest == h.rest
      ensures out.ObjectiveDestroyed? ==> exists c :: c in Roster() && c.isObjective && !c.IsAlive()
    {
      var attackAction, defendAction := TakeNext();
      st := Step(attackAction, defendAction);
      SnapshotSame(Roster());
      assert StepOk(st, Roster());
      out, rest := Play(attackAction, defendAction, draws);
    }

    /**
     * Resolves the declared actions fastest first until the list is empty.
     * A clash action also takes the defender's own pending action out of
     * the list. Resolution stops early when the objective is destroyed (the
     * game is over) or the draws run out; the actions not yet reached stay
     * in the list.
     */
    method ResolveAction(draws: seq<int>) returns (out: Outcome, rest: seq<int>)
      requires Valid()
      modifies actionList, Roster()
      ensures Valid()
      ensures StepsOk(Schedule(old(actionList.actions)), Roster())
      ensures var r := RunSteps(old(Snapshot(Roster())), Schedule(old(actionList.actions)), draws);
              && Snapshot(Roster()) == r.world && out == r.out && rest == r.rest
              && actionList.actions == After(old(actionList.actions), r.done)
      ensures out.Resolved? ==> actionList.actions == []
      ensures |actionList.actions| <= old(|actionList.actions|)
      ensures out.ObjectiveDestroyed? ==> exists c :: c in Roster() && c.isObjective && !c.IsAlive()
    {
      ghost var actions0 := actionList.actions;
      ghost var w0 := Snapshot(Roster());
      ghost var steps: seq<Step> := [];
      ScheduleOk(AllCharacters(), actions0);
      assert Schedule(actions0) == steps + Schedule(actions0);
      out, rest := Resolved, draws;
      while actionList.Length() > 0
        invariant Valid() && out.Resolved?
        invariant Schedule(actions0) == steps + Schedule(actionList.actions)
        invariant actionList.actions == After(actions0, |steps|)
        invariant StepsOk(steps, Roster())
        invariant RunSteps(w0, steps, draws) == Run(Snapshot(Roster()), Resolved, rest, |steps|)
        decreases |actionList.actions|
      {
        ghost var pending := actionList.actions;
        ghost var w := Snapshot(Roster());
        ghost var used := rest;
        ghost var st;
        out, rest, st := ResolveNext(rest);
        ghost var h := BattleOn(w, st, used);
        assert Snapshot(Roster()) == h.world && out == h.out && rest == h.rest;
        ScheduleStep(actions0, steps, pending);
        RunSnoc(w0, steps, st, draws);
        assert RunSteps(w0, steps + [st], draws) == Run(h.world, h.out, h.rest, |steps| + 1);
        steps := steps + [st];
        if !out.Resolved? {
          assert w0.Keys == Roster();
          StepsOkSplit(steps, Schedule(actionList.actions), Roster());
          RunStops(w0, steps, Schedule(actionList.actions), draws);
          assert RunSteps(w0, Schedule(actions0), draws) == Run(Snapshot(Roster()), out, rest, |steps|);
          return;
        }
      }
      assert steps + [] == steps;
    }
  }
}
