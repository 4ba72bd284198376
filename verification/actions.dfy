/**
 * Declared actions and the speed-ordered list that holds at most one pending
 * action per attacker name.
 */
module Actions {
  import opened Options
  import opened Skills
  import opened Characters

  /** An action as declared: the attacker's speed at declaration, the skill, both parties and the mode. */
  datatype Action = Action(speed: int, skill: Skill, att: Character, defn: Character, actType: ActionType)
  {
    /** What declaration guarantees: the target is on the other team, and roster skills are non-negative. */
    predicate WellFormed()
    {
      att != defn && skill.Valid()
    }
  }

  /** The index of the first action whose attacker has this name, or |s| when there is none. */
  function AttIndex(s: seq<Action>, name: string): (i: nat)
    ensures i <= |s|
    ensures forall j :: 0 <= j < i ==> s[j].att.name != name
    ensures i < |s| ==> s[i].att.name == name
  {
    if s == [] then 0
    else if s[0].att.name == name then 0
    else 1 + AttIndex(s[1..], name)
  }

  /** The index of the first action strictly slower than `speed`, or |s| when there is none. */
  function SlotFor(s: seq<Action>, speed: int): (i: nat)
    ensures i <= |s|
    ensures forall j :: 0 <= j < i ==> s[j].speed >= speed
    ensures i < |s| ==> s[i].speed < speed
  {
    if s == [] then 0
    else if speed > s[0].speed then 0
    else 1 + SlotFor(s[1..], speed)
  }

  /**
   * The list after declaring `a`: an attacker already in the list has its
   * action replaced where it stands; a new attacker goes in front of the
   * first strictly slower action.
   */
  function Added(s: seq<Action>, a: Action): seq<Action>
  {
    var i := AttIndex(s, a.att.name);
    if i < |s| then s[i := a]
    else
      var k := SlotFor(s, a.speed);
      s[..k] + [a] + s[k..]
  }

  predicate HasAttacker(s: seq<Action>, name: string)
  {
    exists j :: 0 <= j < |s| && s[j].att.name == name
  }

  /** At most one action per attacker name. */
  predicate UniqueAtts(s: seq<Action>)
  {
    forall i, j :: 0 <= i < j < |s| ==> s[i].att.name != s[j].att.name
  }

  /** Fastest first. */
  predicate SortedBySpeed(s: seq<Action>)
  {
    forall i, j :: 0 <= i < j < |s| ==> s[i].speed >= s[j].speed
  }

  /**
   * A new attacker grows the list by one; its action lands at an index `k`
   * such that every earlier action is at least as fast and the action now
   * after it is strictly slower; everything else keeps its relative order.
   */
  lemma AddedNew(s: seq<Action>, a: Action) returns (k: nat)
    requires !HasAttacker(s, a.att.name)
    ensures k <= |s| && Added(s, a) == s[..k] + [a] + s[k..]
    ensures |Added(s, a)| == |s| + 1
    ensures forall j :: 0 <= j < k ==> s[j].speed >= a.speed
    ensures k < |s| ==> s[k].speed < a.speed
  {
    k := SlotFor(s, a.speed);
  }

  /** A known attacker keeps its index: only that entry changes, and the length stays. */
  lemma AddedKnown(s: seq<Action>, a: Action, i: nat)
    requires i < |s| && s[i].att.name == a.att.name && UniqueAtts(s)
    ensures |Added(s, a)| == |s|
    ensures Added(s, a)[i] == a
    ensures forall j :: 0 <= j < |s| && j != i ==> Added(s, a)[j] == s[j]
  {
    assert AttIndex(s, a.att.name) == i;
  }

  /** Declaring keeps at most one action per attacker and always leaves the new action in the list. */
  lemma AddedUnique(s: seq<Action>, a: Action)
    requires UniqueAtts(s)
    ensures UniqueAtts(Added(s, a))
    ensures a in Added(s, a)
  {
    var i := AttIndex(s, a.att.name);
    if i == |s| {
      var k := AddedNew(s, a);
      var r := Added(s, a);
      forall p, q | 0 <= p < q < |r|
        ensures r[p].att.name != r[q].att.name
      {
        if p == k {
          assert r[q] == s[q - 1];
        } else if q == k {
          assert r[p] == s[p];
        } else {
          assert r[p] == s[if p < k then p else p - 1];
          assert r[q] == s[if q < k then q else q - 1];
        }
      }
      assert r[k] == a;
    } else {
      assert Added(s, a)[i] == a;
    }
  }

  /** Declaring adds nothing but the declared action. */
  lemma AddedMembers(s: seq<Action>, a: Action)
    ensures forall x :: x in Added(s, a) ==> x == a || x in s
  {
    var i := AttIndex(s, a.att.name);
    if i == |s| {
      var k := SlotFor(s, a.speed);
      assert Added(s, a) == s[..k] + [a] + s[k..];
      forall x | x in Added(s, a)
        ensures x == a || x in s
      {
        if x in s[..k] {
          assert x in s;
        }
      }
    } else {
      forall x | x in Added(s, a)
        ensures x == a || x in s
      {
        var j :| 0 <= j < |Added(s, a)| && Added(s, a)[j] == x;
        if j != i {
          assert x == s[j];
        }
      }
    }
  }

  /** On a fastest-first list, declaring a new attacker keeps the list fastest first. */
  lemma AddedSorted(s: seq<Action>, a: Action)
    requires SortedBySpeed(s) && !HasAttacker(s, a.att.name)
    ensures SortedBySpeed(Added(s, a))
  {
    var k := AddedNew(s, a);
    var r := Added(s, a);
    forall p, q | 0 <= p < q < |r|
      ensures r[p].speed >= r[q].speed
    {
      if p == k {
        assert r[q] == s[q - 1];
        assert s[k].speed < a.speed;
        assert s[k].speed >= s[q - 1].speed || q - 1 == k;
      } else if q == k {
        assert r[p] == s[p];
      } else {
        assert r[p] == s[if p < k then p else p - 1];
        assert r[q] == s[if q < k then q else q - 1];
      }
    }
  }

  /**
   * Three attackers declared at speeds 5, 9 and 3 leave the list in the
   * order 9, 5, 3.
   */
  lemma SpeedOrderExample(x: Character, y: Character, z: Character, sk: Skill)
    requires x.name != y.name && y.name != z.name && x.name != z.name
    ensures var a5 := Action(5, sk, x, y, OneSide);
            var a9 := Action(9, sk, y, z, OneSide);
            var a3 := Action(3, sk, z, x, OneSide);
            Added(Added(Added([], a5), a9), a3) == [a9, a5, a3]
  {
    var a5 := Action(5, sk, x, y, OneSide);
    var a9 := Action(9, sk, y, z, OneSide);
    var a3 := Action(3, sk, z, x, OneSide);
    assert Added([], a5) == [a5];
    assert Added([a5], a9) == [a9, a5];
    assert AttIndex([a9, a5], z.name) == 2;
    assert SlotFor([a9, a5], 3) == 2;
  }

  /**
   * Declaring again at a higher speed keeps the old place in the list, so a
   * fastest-first list stops being fastest first.
   */
  lemma RedeclareKeepsPlace(x: Character, y: Character, sk: Skill)
    requires x.name != y.name
    ensures var s := [Action(5, sk, x, y, OneSide), Action(3, sk, y, x, OneSide)];
            var r := Added(s, Action(9, sk, y, x, OneSide));
            SortedBySpeed(s) && r == [Action(5, sk, x, y, OneSide), Action(9, sk, y, x, OneSide)] && !SortedBySpeed(r)
  {
    var s := [Action(5, sk, x, y, OneSide), Action(3, sk, y, x, OneSide)];
    assert AttIndex(s, y.name) == 1;
    var r := Added(s, Action(9, sk, y, x, OneSide));
    assert r == [Action(5, sk, x, y, OneSide), Action(9, sk, y, x, OneSide)];
    assert r[0].speed < r[1].speed;
  }

  class ActionList {
    var actions: seq<Action>

    constructor ()
      ensures actions == []
    {
      actions := [];
    }

    /** Declares `action`, replacing its attacker's pending action or inserting it by speed. */
    method AddAction(action: Action)
      modifies this
      ensures actions == Added(old(actions), action)
      ensures UniqueAtts(old(actions)) ==> UniqueAtts(actions)
    {
      for i := 0 to |actions|
        invariant actions == old(actions)
        invariant forall j :: 0 <= j < i ==> actions[j].att.name != action.att.name
      {
        if actions[i].att.name == action.att.name {
          actions := actions[i := action];
          if UniqueAtts(old(actions)) {
            AddedUnique(old(actions), action);
          }
          return;
        }
      }
      for i := 0 to |actions|
        invariant actions == old(actions)
        invariant forall j :: 0 <= j < i ==> action.speed <= actions[j].speed
      {
        if action.speed > actions[i].speed {
          actions := actions[..i] + [action] + actions[i..];
          if UniqueAtts(old(actions)) {
            AddedUnique(old(actions), action);
          }
          return;
        }
      }
      actions := actions + [action];
      if UniqueAtts(old(actions)) {
        AddedUnique(old(actions), action);
      }
    }

    method RemoveAllActions()
      modifies this
      ensures actions == []
    {
      actions := [];
    }

    /**
     * Takes out the first action whose attacker has the defender's name;
     * `None`, with the list unchanged, when there is none.
     */
    method FindAndRemoveByAttacker(defender: Character) returns (found: Option<Action>)
      modifies this
      ensures var i := AttIndex(old(actions), defender.name);
              if i < |old(actions)|
              then found == Some(old(actions)[i]) && actions == old(actions)[..i] + old(actions)[i + 1..]
              else found == None && actions == old(actions)
      ensures found.Some? ==> found.value.att.name == defender.name && found.value in old(actions)
      ensures UniqueAtts(old(actions)) ==> UniqueAtts(actions) && !HasAttacker(actions, defender.name)
    {
      for i := 0 to |actions|
        invariant actions == old(actions)
        invariant forall j :: 0 <= j < i ==> actions[j].att.name != defender.name
      {
        if actions[i].att.name == defender.name {
          found := Some(actions[i]);
          actions := actions[..i] + actions[i + 1..];
          assert forall j :: 0 <= j < |actions| ==> actions[j] == old(actions)[if j < i then j else j + 1];
          return;
        }
      }
      found := None;
    }

    function Length(): (n: nat)
      reads this
      ensures n == 0 <==> actions == []
    {
      |actions|
    }

    /** Pops the fastest action; the source fails on an empty list, so callers check first. */
    method GetTopAndRemove() returns (top: Action)
      requires actions != []
      modifies this
      ensures top == old(actions)[0] && actions == old(actions)[1..]
    {
      top := actions[0];
      actions := actions[1..];
    }
  }
}
