/** The two record classes of the mod: a named troop and a graveyard entry. */
module Models {

  /** A named troop. Its name is fixed at construction; only its kill count
      changes afterwards, and it is changed in place through every list that
      shares the object (the manager's mapping, a battle's clone of it, the
      graveyard). */
  class CustomTroopInfo {
    const name: string
    var kills: int

    constructor (name: string)
      ensures this.name == name && kills == 0
    {
      this.name := name;
      kills := 0;
    }
  }

  /** A graveyard entry. All three fields are read-only, so the entry is a
      value; `info` is the live troop object itself, not a copy, so it keeps
      the kill count the troop had when it died. */
  datatype DeadTroopInfo = DeadTroopInfo(info: CustomTroopInfo, troopType: string, causeOfDeath: string)

  /** Builds a graveyard entry. */
  function MakeDeadTroopInfo(info: CustomTroopInfo, troopType: string, causeOfDeath: string): (d: DeadTroopInfo)
    ensures d.info == info && d.troopType == troopType && d.causeOfDeath == causeOfDeath
  {
    DeadTroopInfo(info, troopType, causeOfDeath)
  }

  /** The troop objects recorded in a sequence of graveyard entries. */
  function Buried(graves: seq<DeadTroopInfo>): (b: multiset<CustomTroopInfo>)
    ensures |b| == |graves|
  {
    if graves == [] then multiset{} else Buried(graves[..|graves| - 1]) + multiset{graves[|graves| - 1].info}
  }

  lemma BuriedSnoc(graves: seq<DeadTroopInfo>, d: DeadTroopInfo)
    ensures Buried(graves + [d]) == Buried(graves) + multiset{d.info}
  {
    assert (graves + [d])[..|graves|] == graves;
  }

  lemma {:induction false} BuriedAppend(a: seq<DeadTroopInfo>, b: seq<DeadTroopInfo>)
    ensures Buried(a + b) == Buried(a) + Buried(b)
  {
    if b != [] {
      var last := b[|b| - 1];
      assert (a + b)[..|a + b| - 1] == a + b[..|b| - 1];
      BuriedAppend(a, b[..|b| - 1]);
    } else {
      assert a + b == a;
    }
  }
}
