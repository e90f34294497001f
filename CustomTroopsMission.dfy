/** The battle behaviour that hands the registry's named troops to the
    player's spawned soldiers, one per agent, and records their kills and
    deaths. */
module CustomTroopsMission {
  import opened Wrappers
  import opened Models
  import Engine
  import TroopNames

  /** Only the player's own human soldiers that the player does not control
      receive a name. */
  predicate Eligible(agent: Engine.Agent)
  {
    agent.isHuman && agent.onPlayerTeam && !agent.isPlayerControlled
  }

  /** The first troop of a type's list goes to an agent of that type. */
  function Assign(m: TroopNames.TroopMap, agent: Engine.Agent): (r: (Option<CustomTroopInfo>, TroopNames.TroopMap))
    // Ineligible agents, and types with no troops left, change nothing.
    ensures r.0.None? <==> !Eligible(agent) || |TroopNames.Named(m, agent.character)| == 0
    ensures r.0.None? ==> r.1 == m
    // Otherwise the head of the list is assigned and the list loses exactly it.
    ensures r.0.Some? ==>
      && agent.character in m && r.1.Keys == m.Keys
      && [r.0.value] + r.1[agent.character] == m[agent.character]
      && forall t :: t in m && t != agent.character ==> r.1[t] == m[t]
  {
    if !Eligible(agent) || agent.character !in m || |m[agent.character]| == 0 then (None, m)
    else
      var troops := m[agent.character];
      assert troops == [troops[0]] + troops[1..];
      (Some(troops[0]), m[agent.character := troops[1..]])
  }

  /** The troops assigned to a sequence of spawned agents, per type. */
  function Handed(m: TroopNames.TroopMap, agents: seq<Engine.Agent>): TroopNames.TroopMap
    decreases |agents|
  {
    if agents == [] then map[]
    else
      var r := Assign(m, agents[0]);
      var rest := Handed(r.1, agents[1..]);
      if r.0.Some? then Prepended(rest, agents[0].character, r.0.value) else rest
  }

  /** What is left to assign after a sequence of spawned agents. */
  function Remaining(m: TroopNames.TroopMap, agents: seq<Engine.Agent>): TroopNames.TroopMap
    decreases |agents|
  {
    if agents == [] then m else Remaining(Assign(m, agents[0]).1, agents[1..])
  }

  /** Over a battle, each type's troops are handed out in list order, each
      at most once: what was assigned followed by what remains is the
      type's list at the start of the battle. */
  lemma {:induction false} HandedInOrder(m: TroopNames.TroopMap, agents: seq<Engine.Agent>)
    ensures Remaining(m, agents).Keys == m.Keys
    ensures forall t :: t in m ==> TroopNames.Named(Handed(m, agents), t) + Remaining(m, agents)[t] == m[t]
    ensures forall t :: t !in m ==> TroopNames.Named(Handed(m, agents), t) == []
    decreases |agents|
  {
    if agents != [] {
      HandedInOrder(Assign(m, agents[0]).1, agents[1..]);
      HandedStep(m, agents);
    }
  }

  /** `x` put at the front of the list of type `c` (an empty list when `c`
      has none yet). */
  function Prepended(m: TroopNames.TroopMap, c: string, x: CustomTroopInfo): (r: TroopNames.TroopMap)
    ensures r.Keys == m.Keys + {c}
    ensures TroopNames.Named(r, c) == [x] + TroopNames.Named(m, c)
    ensures forall t :: t != c ==> TroopNames.Named(r, t) == TroopNames.Named(m, t)
  {
    m[c := [x] + TroopNames.Named(m, c)]
  }

  /** One spawned agent more keeps `HandedInOrder`'s property. */
  lemma HandedStep(m: TroopNames.TroopMap, agents: seq<Engine.Agent>)
    requires agents != []
    requires var m1 := Assign(m, agents[0]).1;
      && Remaining(m1, agents[1..]).Keys == m1.Keys
      && (forall t :: t in m1 ==> TroopNames.Named(Handed(m1, agents[1..]), t) + Remaining(m1, agents[1..])[t] == m1[t])
      && (forall t :: t !in m1 ==> TroopNames.Named(Handed(m1, agents[1..]), t) == [])
    ensures Remaining(m, agents).Keys == m.Keys
    ensures forall t :: t in m ==> TroopNames.Named(Handed(m, agents), t) + Remaining(m, agents)[t] == m[t]
    ensures forall t :: t !in m ==> TroopNames.Named(Handed(m, agents), t) == []
  {
    var r := Assign(m, agents[0]);
    var rest, left := Handed(r.1, agents[1..]), Remaining(r.1, agents[1..]);
    assert Remaining(m, agents) == left;
    if r.0.Some? {
      assert Handed(m, agents) == Prepended(rest, agents[0].character, r.0.value);
      PrependedSplit(m, agents[0].character, r.0.value, r.1, rest, left);
    } else {
      assert Handed(m, agents) == rest;
    }
  }

  /** Putting the assigned troop back in front of what was handed out later
      restores the split of the list before the assignment. */
  lemma PrependedSplit(m: TroopNames.TroopMap, c: string, x: CustomTroopInfo,
                       m1: TroopNames.TroopMap, rest: TroopNames.TroopMap, left: TroopNames.TroopMap)
    requires c in m && m1.Keys == m.Keys && [x] + m1[c] == m[c]
    requires forall t :: t in m && t != c ==> m1[t] == m[t]
    requires left.Keys == m1.Keys
    requires forall t :: t in m1 ==> TroopNames.Named(rest, t) + left[t] == m1[t]
    requires forall t :: t !in m1 ==> TroopNames.Named(rest, t) == []
    ensures forall t :: t in m ==> TroopNames.Named(Prepended(rest, c, x), t) + left[t] == m[t]
    ensures forall t :: t !in m ==> TroopNames.Named(Prepended(rest, c, x), t) == []
  {
    var h := Prepended(rest, c, x);
    forall t | t in m
      ensures TroopNames.Named(h, t) + left[t] == m[t]
    {
      if t == c {
        assert TroopNames.Named(h, t) + left[t] == [x] + (TroopNames.Named(rest, t) + left[t]);
      }
    }
  }

  class CustomTroopsMissionBehavior {
    /** The lists still to hand out, or `None` while the dictionary is
        still null, before `EarlyStart`. */
    var troopsToAssign: Option<TroopNames.TroopMap>
    /** The lists as taken at the start of the battle. */
    ghost var initial: TroopNames.TroopMap
    /** The troops assigned so far, per type, in assignment order. */
    ghost var given: TroopNames.TroopMap

    /** Each type's list is what remains of its list at the start of the
        battle once the troops already assigned are taken off its front. */
    ghost predicate Valid()
      reads this
    {
      match troopsToAssign
      case None => given == map[]
      case Some(m) =>
        && m.Keys == initial.Keys
        && (forall t :: t in initial ==> TroopNames.Named(given, t) + m[t] == initial[t])
        && (forall t :: t !in initial ==> TroopNames.Named(given, t) == [])
    }

    constructor ()
      ensures Valid() && troopsToAssign == None && given == map[]
    {
      troopsToAssign := None;
      initial := map[];
      given := map[];
    }

    /** Takes the registry's copy of the named troops, or nothing when the
        campaign has no registry. */
    method EarlyStart(manager: TroopNames.CustomTroopNameManager?)
      modifies this
      ensures troopsToAssign == Some(if manager != null then manager.troopNameMapping else map[])
      ensures given == map[] && initial == troopsToAssign.value
      ensures Valid()
    {
      var m: TroopNames.TroopMap;
      if manager != null {
        m := manager.GetTroopsToAssign();
        assert m == manager.troopNameMapping;
      } else {
        m := map[];
      }
      troopsToAssign := Some(m);
      initial := m;
      given := map[];
      forall t | t in initial
        ensures TroopNames.Named(given, t) + m[t] == initial[t]
      {
        assert [] + m[t] == m[t];
      }
    }

    /** Gives a spawned agent the first remaining troop of its type, if it
        is eligible and one is left. Before `EarlyStart` the dictionary is
        null, and looking an eligible agent up in it throws (`threw`). */
    method OnAgentBuild(agent: Engine.Agent) returns (handedOut: Option<CustomTroopInfo>, threw: bool)
      requires Valid()
      modifies this
      ensures Valid()
      ensures threw <==> Eligible(agent) && old(troopsToAssign).None?
      ensures old(troopsToAssign).None? ==> handedOut.None? && troopsToAssign == None
      ensures old(troopsToAssign).Some? ==>
        troopsToAssign.Some? && (handedOut, troopsToAssign.value) == Assign(old(troopsToAssign).value, agent)
      ensures initial == old(initial)
      ensures given == if handedOut.Some?
        then old(given)[agent.character := TroopNames.Named(old(given), agent.character) + [handedOut.value]]
        else old(given)
    {
      if !Eligible(agent) {
        return None, false;
      }
      if troopsToAssign.None? {
        return None, true;
      }
      var m := troopsToAssign.value;
      if agent.character !in m || |m[agent.character]| == 0 {
        return None, false;
      }
      var troops := m[agent.character];
      handedOut, threw := Some(troops[0]), false;
      ghost var before := TroopNames.Named(given, agent.character);
      assert before + troops == initial[agent.character];
      assert troops == [troops[0]] + troops[1..];
      assert (before + [troops[0]]) + troops[1..] == before + troops;
      troopsToAssign := Some(m[agent.character := troops[1..]]);
      given := given[agent.character := before + [troops[0]]];
    }

    /** Records one agent's removal: the affector's troop gains a kill,
        whatever the state, and a named agent's death is reported to the
        registry. Right after the kill, the message names the affected
        agent, so a missing affected agent makes the handler throw
        (`threw`). The cause of death the registry records is not chosen by
        this code; it is a parameter here. */
    method OnAgentRemoved(affected: Option<Engine.Agent>, affector: Option<Engine.Agent>,
                          state: Engine.AgentState, manager: TroopNames.CustomTroopNameManager?, cause: string)
      returns (reported: bool, threw: bool)
      modifies ObjectsOf(affector), manager
      ensures affector.Some? && affector.value.troopInfo.Some? ==>
        affector.value.troopInfo.value.kills == old(affector.value.troopInfo.value.kills) + 1
      ensures threw <==> affector.Some? && affector.value.troopInfo.Some? && affected.None?
      ensures reported <==> state == Engine.Killed && affected.Some? && affected.value.troopInfo.Some? && manager != null
      ensures reported ==>
        var info, t := affected.value.troopInfo.value, affected.value.character;
        && manager.troopGraveyard == old(manager.troopGraveyard) + [DeadTroopInfo(info, t, cause)]
        && manager.troopNameMapping == (if t in old(manager.troopNameMapping)
             then old(manager.troopNameMapping)[t := TroopNames.RemoveFirst(old(manager.troopNameMapping)[t], info)]
             else old(manager.troopNameMapping))
        && manager.awayFromPartyTroops == old(manager.awayFromPartyTroops)
      ensures !reported && manager != null ==> unchanged(manager)
    {
      reported, threw := false, false;
      if affector.Some? && affector.value.troopInfo.Some? {
        var info := affector.value.troopInfo.value;
        info.kills := info.kills + 1;
        if affected.None? {
          threw := true;
          return;
        }
      }
      if state != Engine.Killed {
        return;
      }
      if affected.None? || affected.value.troopInfo.None? || manager == null {
        return;
      }
      manager.TroopDied(affected.value.character, affected.value.troopInfo.value, cause);
      reported := true;
    }
  }

  /** The record object an optional agent carries, as a frame. */
  function ObjectsOf(a: Option<Engine.Agent>): set<object>
  {
    if a.Some? && a.value.troopInfo.Some? then {a.value.troopInfo.value} else {}
  }
}
