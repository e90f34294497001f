/** The few pieces of the host game engine that the mod's bookkeeping reads
    or changes, reduced to what that bookkeeping depends on. A troop type
    (`CharacterObject`) is identified by its name. */
module Engine {
  import opened Models
  import Wrappers

  /** The head-count of a troop type in a roster's counts, 0 when absent. */
  function CountOf(counts: map<string, int>, troopType: string): int
  {
    if troopType in counts then counts[troopType] else 0
  }

  /** A troop roster: head-count per troop type. The mod passes rosters by
      reference and decrements them in place. */
  class Roster {
    var counts: map<string, int>

    constructor (counts: map<string, int>)
      ensures this.counts == counts
    {
      this.counts := counts;
    }

    /** `GetTroopCount`: 0 for a type that is not in the roster. */
    function Count(troopType: string): int
      reads this
    {
      CountOf(counts, troopType)
    }

    /** `AddToCounts(type, delta)`. */
    method AddToCounts(troopType: string, delta: int)
      modifies this
      ensures counts == old(counts)[troopType := old(Count(troopType)) + delta]
      ensures Count(troopType) == old(Count(troopType)) + delta
      ensures forall t :: t != troopType ==> Count(t) == old(Count(t))
    {
      counts := counts[troopType := Count(troopType) + delta];
    }
  }

  /** The engine's `AgentState` at removal. */
  datatype AgentState = None | Active | Routed | Unconscious | Killed | Deleted

  /** What the mod reads of a battle agent: its troop type, the three
      eligibility flags, and the named-troop record attached to it by
      `CustomNameAgentComponent` (None when the agent has no such component). */
  datatype Agent = Agent(
    character: string,
    isHuman: bool,
    onPlayerTeam: bool,
    isPlayerControlled: bool,
    troopInfo: Wrappers.Option<CustomTroopInfo>)
}
