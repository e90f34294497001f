/** The campaign-wide registry of named troops (`CustomTroopNameManager`):
    named troops per troop type, the graveyard, and the troops left with
    other parties; and the game events that change them. */
module TroopNames {
  import opened Wrappers
  import opened Models
  import Engine
  import Text

  /** Troop type -> its named troops, in order. */
  type TroopMap = map<string, seq<CustomTroopInfo>>

  /** Party name -> troop type -> named troops left with that party. */
  type AwayMap = map<string, TroopMap>

  const DeadByProgrammingError := "killed by programming error"
  const Deserted := "deserted"
  const WentSeparateWays := "went their separate ways"

  // ---------------------------------------------------------------------
  // Lists and maps of named troops

  /** The list registered for a type; an absent type has none. */
  function Named(m: TroopMap, troopType: string): seq<CustomTroopInfo>
  {
    if troopType in m then m[troopType] else []
  }

  /** The type map of a party; an absent party has an empty one. */
  function PartyTroops(a: AwayMap, party: string): TroopMap
  {
    if party in a then a[party] else map[]
  }

  /** `list.Add(x)` on the type's list, or a new one-element list when the
      type is absent (`AddTroop`). */
  function Appended(m: TroopMap, troopType: string, x: CustomTroopInfo): (r: TroopMap)
    ensures r.Keys == m.Keys + {troopType}
    ensures Named(r, troopType) == Named(m, troopType) + [x]
    ensures forall t :: t != troopType ==> Named(r, t) == Named(m, t)
  {
    m[troopType := Named(m, troopType) + [x]]
  }

  /** Index of the first occurrence of `x` in `s`. */
  function FirstIndex(s: seq<CustomTroopInfo>, x: CustomTroopInfo): (i: nat)
    requires x in s
    ensures i < |s| && s[i] == x
    ensures forall j :: 0 <= j < i ==> s[j] != x
  {
    if s[0] == x then 0 else 1 + FirstIndex(s[1..], x)
  }

  /** `List.Remove(x)`: drops the first occurrence of `x` (reference
      equality), or leaves the list alone when `x` is not in it. */
  function RemoveFirst(s: seq<CustomTroopInfo>, x: CustomTroopInfo): (r: seq<CustomTroopInfo>)
    ensures x !in s ==> r == s
    ensures x in s ==> |r| == |s| - 1 && multiset(r) + multiset{x} == multiset(s)
    ensures x in s ==> r == s[..FirstIndex(s, x)] + s[FirstIndex(s, x) + 1..]
  {
    if x in s then
      var i := FirstIndex(s, x);
      assert s == s[..i] + [s[i]] + s[i + 1..];
      s[..i] + s[i + 1..]
    else s
  }

  lemma RemoveFirstOfHead(s: seq<CustomTroopInfo>)
    requires |s| > 0
    ensures RemoveFirst(s, s[0]) == s[1..]
  {
    assert FirstIndex(s, s[0]) == 0;
  }

  // ---------------------------------------------------------------------
  // Counting every named troop in a map: the bag of all its lists

  ghost function Pick<V>(m: map<string, V>): (k: string)
    requires m != map[]
    ensures k in m
  {
    var k :| k in m; k
  }

  /** Every named troop registered in a type map: the union of its lists. */
  ghost function Flatten(m: TroopMap): multiset<CustomTroopInfo>
    decreases |m|
  {
    if m == map[] then multiset{}
    else
      var k := Pick(m);
      multiset(m[k]) + Flatten(m - {k})
  }

  /** Taking out any one type takes out exactly its list. */
  lemma {:induction false} FlattenRemove(m: TroopMap, k: string)
    requires k in m
    ensures Flatten(m) == multiset(m[k]) + Flatten(m - {k})
    decreases |m|
  {
    var p := Pick(m);
    if p != k {
      var mp, mk := m - {p}, m - {k};
      var core := mp - {k};
      assert mk - {p} == core;
      FlattenRemove(mp, k);
      FlattenRemove(mk, p);
      Reorder(Flatten(m), multiset(m[p]), multiset(m[k]), Flatten(mp), Flatten(mk), Flatten(core));
    }
  }

  /** Every named troop left with some party. */
  ghost function FlattenAway(a: AwayMap): multiset<CustomTroopInfo>
    decreases |a|
  {
    if a == map[] then multiset{}
    else
      var k := Pick(a);
      Flatten(a[k]) + FlattenAway(a - {k})
  }

  /** Taking out any one party takes out exactly its troops. */
  lemma {:induction false} FlattenAwayRemove(a: AwayMap, k: string)
    requires k in a
    ensures FlattenAway(a) == Flatten(a[k]) + FlattenAway(a - {k})
    decreases |a|
  {
    var p := Pick(a);
    if p != k {
      var ap, ak := a - {p}, a - {k};
      var core := ap - {k};
      assert ak - {p} == core;
      FlattenAwayRemove(ap, k);
      FlattenAwayRemove(ak, p);
      Reorder(FlattenAway(a), Flatten(a[p]), Flatten(a[k]), FlattenAway(ap), FlattenAway(ak), FlattenAway(core));
    }
  }

  /** Taking two parts off a whole in either order leaves the same core. */
  lemma Reorder(whole: multiset<CustomTroopInfo>, x: multiset<CustomTroopInfo>, y: multiset<CustomTroopInfo>,
                restX: multiset<CustomTroopInfo>, restY: multiset<CustomTroopInfo>, core: multiset<CustomTroopInfo>)
    requires whole == x + restX && restX == y + core && restY == x + core
    ensures whole == y + restY
  {
  }

  lemma FlattenSet(m: TroopMap, troopType: string, s: seq<CustomTroopInfo>)
    ensures Flatten(m[troopType := s]) + multiset(Named(m, troopType)) == Flatten(m) + multiset(s)
  {
    var m1 := m[troopType := s];
    FlattenRemove(m1, troopType);
    assert m1 - {troopType} == m - {troopType};
    FlattenWithout(m, troopType);
    Swap(Flatten(m1), multiset(s), Flatten(m - {troopType}), Flatten(m), multiset(Named(m, troopType)));
  }

  lemma FlattenWithout(m: TroopMap, troopType: string)
    ensures Flatten(m - {troopType}) + multiset(Named(m, troopType)) == Flatten(m)
  {
    if troopType in m {
      FlattenRemove(m, troopType);
    } else {
      assert m - {troopType} == m;
    }
  }

  /** Appending a troop adds exactly that troop. */
  lemma FlattenAppended(m: TroopMap, troopType: string, x: CustomTroopInfo)
    ensures Flatten(Appended(m, troopType, x)) == Flatten(m) + multiset{x}
  {
    var s := Named(m, troopType);
    FlattenSet(m, troopType, s + [x]);
    assert multiset(s + [x]) == multiset(s) + multiset{x};
    Grow(Flatten(Appended(m, troopType, x)), Flatten(m), multiset{x}, multiset(s), multiset(s + [x]));
  }

  /** Replacing a type's list by `rest`, when the list holds the troops of
      `rest` and `x`, takes out exactly `x`. */
  lemma FlattenReplace(m: TroopMap, troopType: string, rest: seq<CustomTroopInfo>, x: multiset<CustomTroopInfo>)
    requires multiset(Named(m, troopType)) == multiset(rest) + x
    ensures Flatten(m[troopType := rest]) + x == Flatten(m)
  {
    FlattenSet(m, troopType, rest);
    Peel(Flatten(m[troopType := rest]), Flatten(m), x, multiset(rest), multiset(Named(m, troopType)));
  }

  /** Removing the troop at one index of a list removes exactly that troop. */
  lemma FlattenRemoveAt(m: TroopMap, troopType: string, i: nat)
    requires i < |Named(m, troopType)|
    ensures var s := Named(m, troopType);
      Flatten(m[troopType := s[..i] + s[i + 1..]]) + multiset{s[i]} == Flatten(m)
  {
    var s := Named(m, troopType);
    var rest := s[..i] + s[i + 1..];
    assert s == s[..i] + [s[i]] + s[i + 1..];
    assert multiset(s) == multiset(rest) + multiset{s[i]};
    FlattenReplace(m, troopType, rest, multiset{s[i]});
  }

  lemma FlattenPopFront(m: TroopMap, troopType: string)
    requires |Named(m, troopType)| > 0
    ensures var s := Named(m, troopType);
      Flatten(m[troopType := s[1..]]) + multiset{s[0]} == Flatten(m)
  {
    var s := Named(m, troopType);
    assert s == [s[0]] + s[1..];
    assert multiset(s) == multiset(s[1..]) + multiset{s[0]};
    FlattenReplace(m, troopType, s[1..], multiset{s[0]});
  }

  /** Taking `x` out of one side of a balance. */
  lemma Peel(f1: multiset<CustomTroopInfo>, f0: multiset<CustomTroopInfo>, x: multiset<CustomTroopInfo>,
             rest: multiset<CustomTroopInfo>, whole: multiset<CustomTroopInfo>)
    requires whole == rest + x && f1 + whole == f0 + rest
    ensures f1 + x == f0
  {
    assert f1 + whole == (f1 + x) + rest;
    Cancel(f1 + x, f0, rest);
  }

  /** Adding `x` to one side of a balance. */
  lemma Grow(f1: multiset<CustomTroopInfo>, f0: multiset<CustomTroopInfo>, x: multiset<CustomTroopInfo>,
             rest: multiset<CustomTroopInfo>, whole: multiset<CustomTroopInfo>)
    requires whole == rest + x && f1 + rest == f0 + whole
    ensures f1 == f0 + x
  {
    assert f0 + whole == (f0 + x) + rest;
    Cancel(f1, f0 + x, rest);
  }

  lemma Cancel<T>(a: multiset<T>, b: multiset<T>, c: multiset<T>)
    requires a + c == b + c
    ensures a == b
  {
    assert forall x :: a[x] == (a + c)[x] - c[x];
  }

  /** A part of a whole grows by `x`: so does the whole, on either side. */
  lemma AddToPart(p0: multiset<CustomTroopInfo>, p1: multiset<CustomTroopInfo>,
                  other: multiset<CustomTroopInfo>, x: multiset<CustomTroopInfo>)
    requires p1 == p0 + x
    ensures p1 + other == (p0 + other) + x
    ensures other + p1 == (other + p0) + x
  {
  }

  /** One troop moves from one part of a whole to another. */
  lemma Shift(p0: multiset<CustomTroopInfo>, p1: multiset<CustomTroopInfo>,
              q0: multiset<CustomTroopInfo>, q1: multiset<CustomTroopInfo>, x: multiset<CustomTroopInfo>)
    requires p1 + x == p0 && q1 == q0 + x
    ensures p1 + q1 == p0 + q0
    ensures q1 + p1 == q0 + p0
  {
  }

  /** A balance between two parts survives adding a third part to both sides. */
  lemma Regroup(f1: multiset<CustomTroopInfo>, b1: multiset<CustomTroopInfo>,
                f0: multiset<CustomTroopInfo>, b0: multiset<CustomTroopInfo>, away: multiset<CustomTroopInfo>)
    requires f1 + b1 == f0 + b0
    ensures (f1 + away) + b1 == (f0 + away) + b0
  {
    assert (f1 + away) + b1 == (f1 + b1) + away;
    assert (f0 + away) + b0 == (f0 + b0) + away;
  }

  /** `TroopDied` on the mapping: the troop leaves its type's list if it is there. */
  function WithoutDead(m: TroopMap, troopType: string, x: CustomTroopInfo): (r: TroopMap)
    ensures r.Keys == m.Keys
    ensures Named(r, troopType) == RemoveFirst(Named(m, troopType), x)
    ensures forall t :: t != troopType ==> Named(r, t) == Named(m, t)
  {
    if troopType in m then m[troopType := RemoveFirst(m[troopType], x)] else m
  }

  /** The troop a death brings into the accounts: itself when it was in none of the lists. */
  function Unlisted(m: TroopMap, troopType: string, x: CustomTroopInfo): multiset<CustomTroopInfo>
  {
    if x in Named(m, troopType) then multiset{} else multiset{x}
  }

  /** A death moves a listed troop to the graveyard, and adds an unlisted
      one to the accounts. */
  lemma DeathAccounted(m: TroopMap, a: AwayMap, g: seq<DeadTroopInfo>, troopType: string,
                       x: CustomTroopInfo, cause: string)
    ensures Total(WithoutDead(m, troopType, x), a, g + [DeadTroopInfo(x, troopType, cause)])
      == Total(m, a, g) + Unlisted(m, troopType, x)
  {
    var d := DeadTroopInfo(x, troopType, cause);
    var m1, g1 := WithoutDead(m, troopType, x), g + [d];
    BuriedSnoc(g, d);
    if x in Named(m, troopType) {
      var s := m[troopType];
      var i := FirstIndex(s, x);
      assert m1 == m[troopType := s[..i] + s[i + 1..]];
      FlattenRemoveAt(m, troopType, i);
      Shift(Flatten(m), Flatten(m1), Buried(g), Buried(g1), multiset{x});
      Regroup(Flatten(m1), Buried(g1), Flatten(m), Buried(g), FlattenAway(a));
    } else {
      assert m1 == m;
      AddToPart(Buried(g), Buried(g1), Flatten(m) + FlattenAway(a), multiset{x});
    }
  }

  lemma FlattenEmpty()
    ensures Flatten(map[]) == multiset{}
  {
  }

  lemma FlattenAwaySet(a: AwayMap, party: string, inner: TroopMap)
    ensures FlattenAway(a[party := inner]) + Flatten(PartyTroops(a, party)) == FlattenAway(a) + Flatten(inner)
  {
    var a1 := a[party := inner];
    FlattenAwayRemove(a1, party);
    assert a1 - {party} == a - {party};
    FlattenAwayWithout(a, party);
    Swap(FlattenAway(a1), Flatten(inner), FlattenAway(a - {party}), FlattenAway(a), Flatten(PartyTroops(a, party)));
  }

  /** Replacing one part `p` of a whole by `i`. */
  lemma Swap(x1: multiset<CustomTroopInfo>, i: multiset<CustomTroopInfo>, r: multiset<CustomTroopInfo>,
             x0: multiset<CustomTroopInfo>, p: multiset<CustomTroopInfo>)
    requires x1 == i + r && r + p == x0
    ensures x1 + p == x0 + i
  {
  }

  lemma FlattenAwayWithout(a: AwayMap, party: string)
    ensures FlattenAway(a - {party}) + Flatten(PartyTroops(a, party)) == FlattenAway(a)
  {
    if party in a {
      FlattenAwayRemove(a, party);
    } else {
      assert a - {party} == a;
      FlattenEmpty();
    }
  }

  // ---------------------------------------------------------------------
  // Away-from-party bookkeeping, as pure updates

  /** `TroopLeavesParty`'s callback: append `x` to `away[party][type]`,
      creating the party's map and the type's list as needed. */
  function LeftWith(a: AwayMap, party: string, troopType: string, x: CustomTroopInfo): (r: AwayMap)
    ensures r.Keys == a.Keys + {party}
    ensures Named(r[party], troopType) == Named(PartyTroops(a, party), troopType) + [x]
    ensures forall t :: t != troopType ==> Named(r[party], t) == Named(PartyTroops(a, party), t)
    ensures forall p :: p in a && p != party ==> r[p] == a[p]
  {
    a[party := Appended(PartyTroops(a, party), troopType, x)]
  }

  /** `TroopReturnsToParty`'s removal of the first away troop of a type:
      the emptied type entry is deleted, and the party entry with it once
      the party has no types left. */
  function TakenBack(a: AwayMap, party: string, troopType: string): (r: AwayMap)
    requires |Named(PartyTroops(a, party), troopType)| > 0
    ensures forall p :: p != party ==> (p in r <==> p in a) && (p in r ==> r[p] == a[p])
    ensures Named(PartyTroops(r, party), troopType) == Named(PartyTroops(a, party), troopType)[1..]
    ensures forall t :: t != troopType ==> Named(PartyTroops(r, party), t) == Named(PartyTroops(a, party), t)
  {
    var inner := a[party];
    var list := inner[troopType];
    if |list| == 1 then
      var rest := inner - {troopType};
      if |rest| == 0 then a - {party} else a[party := rest]
    else
      a[party := inner[troopType := list[1..]]]
  }

  /** No away list is empty and no away party has an empty type map. */
  ghost predicate Tidy(a: AwayMap)
  {
    && (forall p :: p in a ==> a[p] != map[])
    && (forall p, t :: p in a && t in a[p] ==> a[p][t] != [])
  }

  lemma TakenBackTidy(a: AwayMap, party: string, troopType: string)
    requires |Named(PartyTroops(a, party), troopType)| > 0
    requires Tidy(a)
    ensures Tidy(TakenBack(a, party, troopType))
  {
    var inner := a[party];
    if |inner[troopType]| == 1 {
      var rest := inner - {troopType};
      if |rest| != 0 {
        assert rest != map[];
      }
    }
  }

  lemma TakenBackFlatten(a: AwayMap, party: string, troopType: string)
    requires |Named(PartyTroops(a, party), troopType)| > 0
    ensures FlattenAway(TakenBack(a, party, troopType)) + multiset{Named(PartyTroops(a, party), troopType)[0]} == FlattenAway(a)
  {
    var inner := a[party];
    var list := inner[troopType];
    var x := list[0];
    var r := TakenBack(a, party, troopType);
    if |list| == 1 {
      var rest := inner - {troopType};
      assert multiset(list) == multiset{x};
      FlattenWithout(inner, troopType);
      if |rest| == 0 {
        assert rest == map[];
        FlattenEmpty();
        assert Flatten(inner) == multiset{x};
        FlattenAwayWithout(a, party);
      } else {
        FlattenAwaySet(a, party, rest);
        Peel(FlattenAway(r), FlattenAway(a), multiset{x}, Flatten(rest), Flatten(inner));
      }
    } else {
      var inner' := inner[troopType := list[1..]];
      FlattenPopFront(inner, troopType);
      FlattenAwaySet(a, party, inner');
      Peel(FlattenAway(r), FlattenAway(a), multiset{x}, Flatten(inner'), Flatten(inner));
    }
  }

  /** A troop that rejoins the party moves from the away lists to the
      mapping: the live troops stay the same. */
  lemma ReturnAccounted(m: TroopMap, a: AwayMap, party: string, troopType: string)
    requires |Named(PartyTroops(a, party), troopType)| > 0
    ensures var x := Named(PartyTroops(a, party), troopType)[0];
      Flatten(Appended(m, troopType, x)) + FlattenAway(TakenBack(a, party, troopType)) == Flatten(m) + FlattenAway(a)
  {
    var x := Named(PartyTroops(a, party), troopType)[0];
    FlattenAppended(m, troopType, x);
    TakenBackFlatten(a, party, troopType);
    Shift(FlattenAway(a), FlattenAway(TakenBack(a, party, troopType)), Flatten(m), Flatten(Appended(m, troopType, x)),
          multiset{x});
  }

  lemma LeftWithFlatten(a: AwayMap, party: string, troopType: string, x: CustomTroopInfo)
    ensures FlattenAway(LeftWith(a, party, troopType, x)) == FlattenAway(a) + multiset{x}
  {
    var inner := PartyTroops(a, party);
    FlattenAppended(inner, troopType, x);
    FlattenAwaySet(a, party, Appended(inner, troopType, x));
    Grow(FlattenAway(LeftWith(a, party, troopType, x)), FlattenAway(a), multiset{x}, Flatten(inner),
         Flatten(Appended(inner, troopType, x)));
  }

  // ---------------------------------------------------------------------
  // The random removal used by desertion, abandonment and leaving

  /** A removal happens only when the type has named troops and the
      decremented head-count is below their number. */
  predicate MustRemove(m: TroopMap, troopType: string, countBefore: int)
  {
    |Named(m, troopType)| > 0 && countBefore - 1 < |Named(m, troopType)|
  }

  /** The relation `RemoveRandomTroopIfNecessary` establishes between the
      mapping before (`m0`) and after (`m1`), the troop it removed and the
      index the random draw chose. */
  predicate RandomRemoval(m0: TroopMap, troopType: string, countBefore: int,
                          m1: TroopMap, removed: Option<CustomTroopInfo>, index: nat)
  {
    var troops := Named(m0, troopType);
    if MustRemove(m0, troopType, countBefore) then
      && index < |troops|
      && removed == Some(troops[index])
      && m1 == m0[troopType := troops[..index] + troops[index + 1..]]
    else
      removed == None && m1 == m0
  }

  lemma RandomRemovalFlatten(m0: TroopMap, troopType: string, countBefore: int,
                             m1: TroopMap, removed: Option<CustomTroopInfo>, index: nat)
    requires RandomRemoval(m0, troopType, countBefore, m1, removed, index)
    ensures Flatten(m1) + (if removed.Some? then multiset{removed.value} else multiset{}) == Flatten(m0)
  {
    if removed.Some? {
      FlattenRemoveAt(m0, troopType, index);
    }
  }

  // ---------------------------------------------------------------------
  // Reconciliation

  /** How many troops `CheckValid` pops off the front of a list so that it
      is no longer than the head-count. */
  function Excess(troops: seq<CustomTroopInfo>, count: int): (n: nat)
    requires count >= 0
    ensures n <= |troops|
    ensures |troops| - n <= count
    ensures n > 0 ==> |troops| - n == count
  {
    if |troops| > count then |troops| - count else 0
  }

  /** Graveyard entries for `troops`, in order, all of one type and cause. */
  function Graves(troops: seq<CustomTroopInfo>, troopType: string, cause: string): (g: seq<DeadTroopInfo>)
    ensures |g| == |troops|
  {
    if troops == [] then [] else Graves(troops[..|troops| - 1], troopType, cause) + [DeadTroopInfo(troops[|troops| - 1], troopType, cause)]
  }

  lemma {:induction false} GravesBuried(troops: seq<CustomTroopInfo>, troopType: string, cause: string)
    ensures Buried(Graves(troops, troopType, cause)) == multiset(troops)
  {
    if troops != [] {
      var g := Graves(troops, troopType, cause);
      assert g[..|g| - 1] == Graves(troops[..|troops| - 1], troopType, cause);
      GravesBuried(troops[..|troops| - 1], troopType, cause);
      assert troops == troops[..|troops| - 1] + [troops[|troops| - 1]];
    }
  }

  lemma GravesSnoc(troops: seq<CustomTroopInfo>, x: CustomTroopInfo, troopType: string, cause: string)
    ensures Graves(troops + [x], troopType, cause) == Graves(troops, troopType, cause) + [DeadTroopInfo(x, troopType, cause)]
  {
    assert (troops + [x])[..|troops|] == troops;
  }

  /** Popping `e` troops off the front of a list and burying them keeps
      every troop accounted for. */
  lemma TrimAccounted(m: TroopMap, troopType: string, g: seq<DeadTroopInfo>, e: nat)
    requires troopType in m && e <= |m[troopType]|
    ensures var s := m[troopType];
      && Flatten(m[troopType := s[e..]]) + multiset(s[..e]) == Flatten(m)
      && Buried(g + Graves(s[..e], troopType, DeadByProgrammingError)) == Buried(g) + multiset(s[..e])
  {
    var s := m[troopType];
    assert s == s[..e] + s[e..];
    assert multiset(s) == multiset(s[e..]) + multiset(s[..e]);
    FlattenReplace(m, troopType, s[e..], multiset(s[..e]));
    BuriedAppend(g, Graves(s[..e], troopType, DeadByProgrammingError));
    GravesBuried(s[..e], troopType, DeadByProgrammingError);
  }

  /** The mapping once `CheckValid` has trimmed the types in `visited`. */
  function Reconciled(m: TroopMap, counts: map<string, int>, visited: set<string>): (r: TroopMap)
    requires forall t :: t in counts ==> counts[t] >= 0
    ensures r.Keys == m.Keys
  {
    map t | t in m :: if t in visited then m[t][Excess(m[t], Engine.CountOf(counts, t))..] else m[t]
  }

  lemma ReconciledStep(m: TroopMap, counts: map<string, int>, visited: set<string>, troopType: string)
    requires forall t :: t in counts ==> counts[t] >= 0
    requires troopType in m && troopType !in visited
    ensures var r := Reconciled(m, counts, visited);
      r[troopType := r[troopType][Excess(r[troopType], Engine.CountOf(counts, troopType))..]]
        == Reconciled(m, counts, visited + {troopType})
  {
  }

  /** The entries `CheckValid` appends, visiting the types in `order`. */
  function Vanished(order: seq<string>, m: TroopMap, counts: map<string, int>): seq<DeadTroopInfo>
    requires forall t :: t in counts ==> counts[t] >= 0
  {
    if order == [] then []
    else
      var t := order[|order| - 1];
      var troops := Named(m, t);
      Vanished(order[..|order| - 1], m, counts)
        + Graves(troops[..Excess(troops, Engine.CountOf(counts, t))], t, DeadByProgrammingError)
  }

  /** What `CheckValid` has done once it has visited the types in
      `visited`, in the order `order`, starting from mapping `m0` and
      graveyard `g0`: `m` and `g` are the mapping and graveyard now. */
  ghost predicate ReconcileProgress(m0: TroopMap, counts: map<string, int>, g0: seq<DeadTroopInfo>,
                                    visited: set<string>, order: seq<string>, m: TroopMap, g: seq<DeadTroopInfo>)
  {
    && (forall t :: t in counts ==> counts[t] >= 0)
    && visited <= m0.Keys
    && |order| == |visited|
    && (forall t :: t in order <==> t in visited)
    && (forall i, j :: 0 <= i < j < |order| ==> order[i] != order[j])
    && m == Reconciled(m0, counts, visited)
    && g == g0 + Vanished(order, m0, counts)
  }

  /** Before `CheckValid` visits any type, nothing has changed. */
  lemma ReconcileStart(m0: TroopMap, counts: map<string, int>, g0: seq<DeadTroopInfo>)
    requires forall t :: t in counts ==> counts[t] >= 0
    ensures ReconcileProgress(m0, counts, g0, {}, [], m0, g0)
  {
    assert Reconciled(m0, counts, {}) == m0;
  }

  /** Visiting one more type keeps `ReconcileProgress`. */
  lemma ReconcileStep(m0: TroopMap, counts: map<string, int>, g0: seq<DeadTroopInfo>,
                      visited: set<string>, order: seq<string>, m: TroopMap, g: seq<DeadTroopInfo>, t: string,
                      visited1: set<string>, m1: TroopMap, g1: seq<DeadTroopInfo>)
    requires ReconcileProgress(m0, counts, g0, visited, order, m, g)
    requires t in m0 && t !in visited && visited1 == visited + {t}
    requires t in m ==> m1 == m[t := m[t][Excess(m[t], Engine.CountOf(counts, t))..]]
    requires t in m ==> g1 == g + Graves(m[t][..Excess(m[t], Engine.CountOf(counts, t))], t, DeadByProgrammingError)
    ensures t in m
    ensures ReconcileProgress(m0, counts, g0, visited1, order + [t], m1, g1)
  {
    assert m[t] == m0[t];
    ReconciledStep(m0, counts, visited, t);
    VanishedSnoc(order, t, m0, counts, g0, g);
    OrderSnoc(order, visited, t);
  }

  /** Trimming the types of `order` and burying what was popped keeps
      every troop accounted for. */
  lemma {:induction false} ReconcileConserves(m0: TroopMap, counts: map<string, int>, g0: seq<DeadTroopInfo>,
                                              visited: set<string>, order: seq<string>)
    requires forall t :: t in counts ==> counts[t] >= 0
    requires visited <= m0.Keys && forall t :: t in order <==> t in visited
    requires forall i, j :: 0 <= i < j < |order| ==> order[i] != order[j]
    ensures Flatten(Reconciled(m0, counts, visited)) + Buried(g0 + Vanished(order, m0, counts))
      == Flatten(m0) + Buried(g0)
  {
    if order == [] {
      assert visited == {};
      assert Reconciled(m0, counts, visited) == m0;
      assert g0 + Vanished(order, m0, counts) == g0;
    } else {
      var front, t := order[..|order| - 1], order[|order| - 1];
      var v := visited - {t};
      DropLast(order, visited);
      ReconcileConserves(m0, counts, g0, v, front);
      ConserveStep(m0, counts, g0, v, front, t);
    }
  }

  /** Taking the last type off a visiting order without repeats. */
  lemma DropLast(order: seq<string>, visited: set<string>)
    requires order != [] && forall x :: x in order <==> x in visited
    requires forall i, j :: 0 <= i < j < |order| ==> order[i] != order[j]
    ensures var front, t := order[..|order| - 1], order[|order| - 1];
      && order == front + [t] && t in visited && visited == (visited - {t}) + {t}
      && (forall x :: x in front <==> x in visited - {t})
      && (forall i, j :: 0 <= i < j < |front| ==> front[i] != front[j])
  {
    var front, t := order[..|order| - 1], order[|order| - 1];
    assert order == front + [t];
    assert forall i :: 0 <= i < |front| ==> front[i] == order[i] != order[|order| - 1];
  }

  /** Trimming one more type `t` keeps every troop accounted for. */
  lemma ConserveStep(m0: TroopMap, counts: map<string, int>, g0: seq<DeadTroopInfo>,
                     v: set<string>, front: seq<string>, t: string)
    requires forall x :: x in counts ==> counts[x] >= 0
    requires t in m0 && t !in v
    requires Flatten(Reconciled(m0, counts, v)) + Buried(g0 + Vanished(front, m0, counts)) == Flatten(m0) + Buried(g0)
    ensures Flatten(Reconciled(m0, counts, v + {t})) + Buried(g0 + Vanished(front + [t], m0, counts))
      == Flatten(m0) + Buried(g0)
  {
    var r, g := Reconciled(m0, counts, v), g0 + Vanished(front, m0, counts);
    var r1, g1 := Reconciled(m0, counts, v + {t}), g0 + Vanished(front + [t], m0, counts);
    var e := Excess(m0[t], Engine.CountOf(counts, t));
    assert r[t] == m0[t];
    assert r1 == r[t := r[t][e..]] by {
      ReconciledStep(m0, counts, v, t);
    }
    assert g1 == g + Graves(m0[t][..e], t, DeadByProgrammingError) by {
      VanishedSnoc(front, t, m0, counts, g0, g);
    }
    TrimAccounted(r, t, g, e);
    Shift(Flatten(r), Flatten(r1), Buried(g), Buried(g1), multiset(m0[t][..e]));
  }

  lemma VanishedSnoc(order: seq<string>, t: string, m0: TroopMap, counts: map<string, int>,
                     g0: seq<DeadTroopInfo>, g: seq<DeadTroopInfo>)
    requires forall x :: x in counts ==> counts[x] >= 0
    requires t in m0 && g == g0 + Vanished(order, m0, counts)
    ensures g + Graves(m0[t][..Excess(m0[t], Engine.CountOf(counts, t))], t, DeadByProgrammingError)
      == g0 + Vanished(order + [t], m0, counts)
  {
    assert (order + [t])[..|order|] == order;
  }

  lemma OrderSnoc(order: seq<string>, visited: set<string>, t: string)
    requires |order| == |visited| && (forall x :: x in order <==> x in visited)
    requires forall i, j :: 0 <= i < j < |order| ==> order[i] != order[j]
    requires t !in visited
    ensures |order + [t]| == |visited + {t}| && (forall x :: x in order + [t] <==> x in visited + {t})
    ensures forall i, j :: 0 <= i < j < |order + [t]| ==> (order + [t])[i] != (order + [t])[j]
  {
  }

  /** Once every type is visited, the mapping is trimmed everywhere. */
  lemma ReconcileDone(m0: TroopMap, counts: map<string, int>, g0: seq<DeadTroopInfo>,
                      visited: set<string>, order: seq<string>, m: TroopMap, g: seq<DeadTroopInfo>)
    requires ReconcileProgress(m0, counts, g0, visited, order, m, g)
    requires visited == m0.Keys
    ensures m.Keys == m0.Keys
    ensures forall t :: t in m ==> m[t] == m0[t][Excess(m0[t], Engine.CountOf(counts, t))..]
    ensures |order| == |m0| && (forall t :: t in order <==> t in m0)
    ensures forall i, j :: 0 <= i < j < |order| ==> order[i] != order[j]
    ensures g == g0 + Vanished(order, m0, counts)
    ensures Flatten(m) + Buried(g) == Flatten(m0) + Buried(g0)
  {
    ReconcileConserves(m0, counts, g0, visited, order);
  }

  /** Every troop the registry records in mapping `m`, away map `a` and
      graveyard `g`. */
  ghost function Total(m: TroopMap, a: AwayMap, g: seq<DeadTroopInfo>): multiset<CustomTroopInfo>
  {
    (Flatten(m) + FlattenAway(a)) + Buried(g)
  }

  /** Nothing was lost since the registry held `total` troops with
      graveyard `g0`: every troop is still recorded in `m`, `a` or `g`, the
      graveyard only grew, and a tidy away map stayed tidy. */
  ghost predicate Kept(total: multiset<CustomTroopInfo>, g0: seq<DeadTroopInfo>, tidy0: bool,
                       m: TroopMap, a: AwayMap, g: seq<DeadTroopInfo>)
  {
    Total(m, a, g) == total && g0 <= g && (tidy0 ==> Tidy(a))
  }

  lemma KeptTrans(total: multiset<CustomTroopInfo>, g0: seq<DeadTroopInfo>, tidy0: bool,
                   m1: TroopMap, a1: AwayMap, g1: seq<DeadTroopInfo>, m2: TroopMap, a2: AwayMap, g2: seq<DeadTroopInfo>)
    requires Kept(total, g0, tidy0, m1, a1, g1)
    requires Kept(Total(m1, a1, g1), g1, Tidy(a1), m2, a2, g2)
    ensures Kept(total, g0, tidy0, m2, a2, g2)
  {
  }

  // ---------------------------------------------------------------------
  // Kill-count suffix of the troop listing (`PrintTroops`)

  function KillSuffix(kills: int): (s: string)
    ensures s == "" <==> kills == 0
    ensures s != "" ==> s[0] == '(' && s[|s| - 1] == ')'
  {
    if kills == 0 then ""
    else if kills == 1 then "(1 Kill)"
    else "(" + Text.IntToString(kills) + " Kills)"
  }

  /** The suffix determines the kill count. */
  lemma KillSuffixInjective(a: int, b: int)
    requires KillSuffix(a) == KillSuffix(b)
    ensures a == b
  {
    if a != 0 && a != 1 && b != 0 && b != 1 {
      var sa, sb := KillSuffix(a), KillSuffix(b);
      assert sa[1..|sa| - 7] == Text.IntToString(a);
      assert sb[1..|sb| - 7] == Text.IntToString(b);
      Text.IntToStringInjective(a, b);
    }
  }

  // ---------------------------------------------------------------------
  // The registry

  class CustomTroopNameManager {
    var troopNameMapping: TroopMap
    var troopGraveyard: seq<DeadTroopInfo>
    var awayFromPartyTroops: AwayMap

    /** The named troops still alive: with the party or away from it. */
    ghost function Live(): multiset<CustomTroopInfo>
      reads this
    {
      Flatten(troopNameMapping) + FlattenAway(awayFromPartyTroops)
    }

    /** Every named troop the registry has ever recorded, alive or dead. */
    ghost function Accounted(): multiset<CustomTroopInfo>
      reads this
    {
      Total(troopNameMapping, awayFromPartyTroops, troopGraveyard)
    }

    ghost predicate AwayTidy()
      reads this
    {
      Tidy(awayFromPartyTroops)
    }

    constructor ()
      ensures troopNameMapping == map[] && troopGraveyard == [] && awayFromPartyTroops == map[]
      ensures AwayTidy()
    {
      troopNameMapping := map[];
      troopGraveyard := [];
      awayFromPartyTroops := map[];
    }

    /** Registers `newTroop` at the end of its type's list. */
    method AddTroop(unitName: string, newTroop: CustomTroopInfo)
      modifies this
      ensures troopNameMapping == Appended(old(troopNameMapping), unitName, newTroop)
      ensures troopGraveyard == old(troopGraveyard) && awayFromPartyTroops == old(awayFromPartyTroops)
      ensures Live() == old(Live()) + multiset{newTroop}
      ensures Accounted() == old(Accounted()) + multiset{newTroop}
    {
      ghost var m0 := troopNameMapping;
      if unitName in troopNameMapping {
        troopNameMapping := troopNameMapping[unitName := troopNameMapping[unitName] + [newTroop]];
      } else {
        assert [] + [newTroop] == [newTroop];
        troopNameMapping := troopNameMapping[unitName := [newTroop]];
      }
      assert troopNameMapping == Appended(m0, unitName, newTroop);
      FlattenAppended(m0, unitName, newTroop);
      AddToPart(old(Live()), Live(), Buried(troopGraveyard), multiset{newTroop});
    }

    /** The recruit-naming callback: a troop given a name joins its type. */
    method NameRecruit(unitName: string, name: string) returns (troop: CustomTroopInfo)
      modifies this
      ensures fresh(troop) && troop.name == name && troop.kills == 0
      ensures troopNameMapping == Appended(old(troopNameMapping), unitName, troop)
      ensures troopGraveyard == old(troopGraveyard) && awayFromPartyTroops == old(awayFromPartyTroops)
    {
      troop := new CustomTroopInfo(name);
      AddTroop(unitName, troop);
    }

    /** The first named troop of `oldType` becomes the last of `newType`. */
    method TroopUpgraded(oldType: string, newType: string) returns (promoted: Option<CustomTroopInfo>)
      modifies this
      ensures var troops := Named(old(troopNameMapping), oldType);
        if |troops| == 0 then
          promoted == None && troopNameMapping == old(troopNameMapping)
        else
          && promoted == Some(troops[0])
          && troopNameMapping == Appended(old(troopNameMapping)[oldType := troops[1..]], newType, troops[0])
      ensures troopGraveyard == old(troopGraveyard) && awayFromPartyTroops == old(awayFromPartyTroops)
      ensures Live() == old(Live())
    {
      if oldType !in troopNameMapping || |troopNameMapping[oldType]| == 0 {
        return None;
      }
      var troops := troopNameMapping[oldType];
      var troopInfo := troops[0];
      RemoveFirstOfHead(troops);
      FlattenPopFront(troopNameMapping, oldType);
      troopNameMapping := troopNameMapping[oldType := RemoveFirst(troops, troopInfo)];
      AddTroop(newType, troopInfo);
      promoted := Some(troopInfo);
    }

    /** Takes one troop of `troopType` off `roster`, and drops a random named
        troop of that type if the named ones now outnumber the head-count. */
    method RemoveRandomTroopIfNecessary(troopType: string, roster: Engine.Roster)
      returns (removed: Option<CustomTroopInfo>, removeIdx: nat)
      modifies this, roster
      ensures roster.counts == old(roster.counts)[troopType := old(roster.Count(troopType)) - 1]
      ensures RandomRemoval(old(troopNameMapping), troopType, old(roster.Count(troopType)),
                            troopNameMapping, removed, removeIdx)
      ensures troopGraveyard == old(troopGraveyard) && awayFromPartyTroops == old(awayFromPartyTroops)
    {
      var troops := Named(troopNameMapping, troopType);
      roster.AddToCounts(troopType, -1);
      if |troops| == 0 || roster.Count(troopType) >= |troops| {
        return None, 0;
      }
      removeIdx :| 0 <= removeIdx < |troops|;
      removed := Some(troops[removeIdx]);
      troopNameMapping := troopNameMapping[troopType := troops[..removeIdx] + troops[removeIdx + 1..]];
    }

    /** Moves `troopInfo` from its type's list (if it is there) to the graveyard. */
    method TroopDied(troopType: string, troopInfo: CustomTroopInfo, causeOfDeath: string)
      modifies this
      ensures troopNameMapping == WithoutDead(old(troopNameMapping), troopType, troopInfo)
      ensures troopGraveyard == old(troopGraveyard) + [DeadTroopInfo(troopInfo, troopType, causeOfDeath)]
      ensures awayFromPartyTroops == old(awayFromPartyTroops)
      ensures Accounted() == old(Accounted()) + Unlisted(old(troopNameMapping), troopType, troopInfo)
    {
      ghost var m1 := WithoutDead(troopNameMapping, troopType, troopInfo);
      DeathAccounted(troopNameMapping, awayFromPartyTroops, troopGraveyard, troopType, troopInfo, causeOfDeath);
      if troopType in troopNameMapping {
        var troops := troopNameMapping[troopType];
        troopNameMapping := troopNameMapping[troopType := RemoveFirst(troops, troopInfo)];
      }
      assert troopNameMapping == m1;
      troopGraveyard := troopGraveyard + [MakeDeadTroopInfo(troopInfo, troopType, causeOfDeath)];
    }

    /** An unidentified death of the type kills its first named troop. */
    method AnonymousTroopDied(troopType: string, causeOfDeath: string)
      modifies this
      ensures var troops := Named(old(troopNameMapping), troopType);
        if |troops| == 0 then
          troopNameMapping == old(troopNameMapping) && troopGraveyard == old(troopGraveyard)
        else
          && troopNameMapping == old(troopNameMapping)[troopType := troops[1..]]
          && troopGraveyard == old(troopGraveyard) + [DeadTroopInfo(troops[0], troopType, causeOfDeath)]
      ensures awayFromPartyTroops == old(awayFromPartyTroops)
      ensures Accounted() == old(Accounted())
    {
      if troopType !in troopNameMapping || |troopNameMapping[troopType]| == 0 {
        return;
      }
      RemoveFirstOfHead(troopNameMapping[troopType]);
      TroopDied(troopType, troopNameMapping[troopType][0], causeOfDeath);
    }

    /** A troop of the type deserts; a named one, if one must go, is buried
        as "deserted". */
    method TroopDeserted(troopType: string, rosterBeforeDesertion: Engine.Roster)
      returns (deserted: Option<CustomTroopInfo>, removeIdx: nat)
      modifies this, rosterBeforeDesertion
      ensures rosterBeforeDesertion.counts ==
        old(rosterBeforeDesertion.counts)[troopType := old(rosterBeforeDesertion.Count(troopType)) - 1]
      ensures RandomRemoval(old(troopNameMapping), troopType, old(rosterBeforeDesertion.Count(troopType)),
                            troopNameMapping, deserted, removeIdx)
      ensures troopGraveyard == old(troopGraveyard) +
        if deserted.Some? then [DeadTroopInfo(deserted.value, troopType, Deserted)] else []
      ensures awayFromPartyTroops == old(awayFromPartyTroops)
      ensures Accounted() == old(Accounted())
    {
      ghost var m0 := troopNameMapping;
      ghost var count0 := rosterBeforeDesertion.Count(troopType);
      deserted, removeIdx := RemoveRandomTroopIfNecessary(troopType, rosterBeforeDesertion);
      RandomRemovalFlatten(m0, troopType, count0, troopNameMapping, deserted, removeIdx);
      Bury(troopType, deserted, Deserted);
    }

    /** A troop of the type is dismissed from the party screen; a named one,
        if one must go, is buried as "went their separate ways". */
    method TroopAbandoned(troopType: string, rosterBeforeAbandonment: Engine.Roster)
      returns (abandoned: Option<CustomTroopInfo>, removeIdx: nat)
      modifies this, rosterBeforeAbandonment
      ensures rosterBeforeAbandonment.counts ==
        old(rosterBeforeAbandonment.counts)[troopType := old(rosterBeforeAbandonment.Count(troopType)) - 1]
      ensures RandomRemoval(old(troopNameMapping), troopType, old(rosterBeforeAbandonment.Count(troopType)),
                            troopNameMapping, abandoned, removeIdx)
      ensures troopGraveyard == old(troopGraveyard) +
        if abandoned.Some? then [DeadTroopInfo(abandoned.value, troopType, WentSeparateWays)] else []
      ensures awayFromPartyTroops == old(awayFromPartyTroops)
      ensures Accounted() == old(Accounted())
    {
      ghost var m0 := troopNameMapping;
      ghost var count0 := rosterBeforeAbandonment.Count(troopType);
      abandoned, removeIdx := RemoveRandomTroopIfNecessary(troopType, rosterBeforeAbandonment);
      RandomRemovalFlatten(m0, troopType, count0, troopNameMapping, abandoned, removeIdx);
      Bury(troopType, abandoned, WentSeparateWays);
    }

    /** The removal callback shared by desertion and abandonment. Called
        right after `RemoveRandomTroopIfNecessary`, so the troop it buries
        has just left the mapping. */
    method Bury(troopType: string, removed: Option<CustomTroopInfo>, cause: string)
      modifies this
      ensures troopGraveyard == old(troopGraveyard) +
        if removed.Some? then [DeadTroopInfo(removed.value, troopType, cause)] else []
      ensures troopNameMapping == old(troopNameMapping) && awayFromPartyTroops == old(awayFromPartyTroops)
      ensures Accounted() == old(Accounted()) + if removed.Some? then multiset{removed.value} else multiset{}
    {
      if removed.Some? {
        BuriedAppend(troopGraveyard, [DeadTroopInfo(removed.value, troopType, cause)]);
        troopGraveyard := troopGraveyard + [MakeDeadTroopInfo(removed.value, troopType, cause)];
      } else {
        assert troopGraveyard + [] == troopGraveyard;
      }
    }

    /** A troop of the type is left with `partyName`; a named one, if one
        must go, is kept in that party's away list. */
    method TroopLeavesParty(troopType: string, roster: Engine.Roster, partyName: string)
      returns (left: Option<CustomTroopInfo>, removeIdx: nat)
      modifies this, roster
      ensures roster.counts == old(roster.counts)[troopType := old(roster.Count(troopType)) - 1]
      ensures RandomRemoval(old(troopNameMapping), troopType, old(roster.Count(troopType)),
                            troopNameMapping, left, removeIdx)
      ensures awayFromPartyTroops ==
        if left.Some? then LeftWith(old(awayFromPartyTroops), partyName, troopType, left.value)
        else old(awayFromPartyTroops)
      ensures troopGraveyard == old(troopGraveyard)
      ensures Live() == old(Live())
      ensures old(AwayTidy()) ==> AwayTidy()
    {
      ghost var m0 := troopNameMapping;
      ghost var count0 := roster.Count(troopType);
      left, removeIdx := RemoveRandomTroopIfNecessary(troopType, roster);
      RandomRemovalFlatten(m0, troopType, count0, troopNameMapping, left, removeIdx);
      if left.None? {
        return;
      }
      var troopInfo := left.value;
      LeftWithFlatten(awayFromPartyTroops, partyName, troopType, troopInfo);
      Shift(Flatten(m0), Flatten(troopNameMapping), FlattenAway(awayFromPartyTroops),
            FlattenAway(LeftWith(awayFromPartyTroops, partyName, troopType, troopInfo)), multiset{troopInfo});
      LeaveWith(partyName, troopType, troopInfo);
    }

    /** The callback of `TroopLeavesParty`: files `troopInfo` under
        `partyName`, creating the party's dictionary and list as needed. */
    method LeaveWith(partyName: string, troopType: string, troopInfo: CustomTroopInfo)
      modifies this
      ensures awayFromPartyTroops == LeftWith(old(awayFromPartyTroops), partyName, troopType, troopInfo)
      ensures troopNameMapping == old(troopNameMapping) && troopGraveyard == old(troopGraveyard)
      ensures old(AwayTidy()) ==> AwayTidy()
    {
      if partyName !in awayFromPartyTroops {
        assert Appended(map[], troopType, troopInfo) == map[troopType := [troopInfo]] by {
          assert Named(map[], troopType) + [troopInfo] == [troopInfo];
        }
        awayFromPartyTroops := awayFromPartyTroops[partyName := map[troopType := [troopInfo]]];
        return;
      }
      var partyTroops := awayFromPartyTroops[partyName];
      assert [] + [troopInfo] == [troopInfo];
      if troopType !in partyTroops {
        partyTroops := partyTroops[troopType := [troopInfo]];
      } else {
        partyTroops := partyTroops[troopType := partyTroops[troopType] + [troopInfo]];
      }
      assert partyTroops == Appended(old(awayFromPartyTroops)[partyName], troopType, troopInfo);
      awayFromPartyTroops := awayFromPartyTroops[partyName := partyTroops];
    }

    /** The first troop of the type left with `partyName` rejoins. */
    method TroopReturnsToParty(troopType: string, partyName: string) returns (returned: Option<CustomTroopInfo>)
      modifies this
      ensures var away := Named(PartyTroops(old(awayFromPartyTroops), partyName), troopType);
        if |away| == 0 then
          && returned == None
          && troopNameMapping == old(troopNameMapping)
          && awayFromPartyTroops == old(awayFromPartyTroops)
        else
          && returned == Some(away[0])
          && troopNameMapping == Appended(old(troopNameMapping), troopType, away[0])
          && awayFromPartyTroops == TakenBack(old(awayFromPartyTroops), partyName, troopType)
      ensures troopGraveyard == old(troopGraveyard)
      ensures Live() == old(Live())
      ensures old(AwayTidy()) ==> AwayTidy()
    {
      if partyName !in awayFromPartyTroops {
        return None;
      }
      var partyTroops := awayFromPartyTroops[partyName];
      if troopType !in partyTroops || |partyTroops[troopType]| == 0 {
        return None;
      }
      var troopList := partyTroops[troopType];
      var troop := troopList[0];
      ReturnAccounted(troopNameMapping, awayFromPartyTroops, partyName, troopType);
      if Tidy(awayFromPartyTroops) {
        TakenBackTidy(awayFromPartyTroops, partyName, troopType);
      }
      if |troopList| == 1 {
        partyTroops := partyTroops - {troopType};
        if |partyTroops| == 0 {
          awayFromPartyTroops := awayFromPartyTroops - {partyName};
        } else {
          awayFromPartyTroops := awayFromPartyTroops[partyName := partyTroops];
        }
      } else {
        awayFromPartyTroops := awayFromPartyTroops[partyName := partyTroops[troopType := troopList[1..]]];
      }
      AddTroop(troopType, troop);
      returned := Some(troop);
    }

    /** A copy of the mapping for one battle to consume. The lists are
        values, so consuming the copy leaves the registry's lists alone;
        the troop objects in them are shared. */
    method GetTroopsToAssign() returns (clone: TroopMap)
      ensures clone.Keys == troopNameMapping.Keys
      ensures forall t :: t in clone ==> clone[t] == troopNameMapping[t]
      ensures Flatten(clone) == Flatten(troopNameMapping)
    {
      clone := map t | t in troopNameMapping :: troopNameMapping[t];
      assert clone == troopNameMapping;
    }

    /** Pops named troops off the front of each type's list until the list
        is no longer than that type's head-count in `roster`, burying each
        popped troop. Types are visited in `order`, the dictionary's. */
    method CheckValid(roster: Engine.Roster) returns (ghost order: seq<string>)
      requires forall t :: t in roster.counts ==> roster.counts[t] >= 0
      modifies this
      ensures troopNameMapping.Keys == old(troopNameMapping).Keys
      ensures forall t :: t in troopNameMapping ==>
        troopNameMapping[t] == old(troopNameMapping)[t][Excess(old(troopNameMapping)[t], roster.Count(t))..]
      ensures forall t :: t in troopNameMapping ==> |troopNameMapping[t]| <= roster.Count(t)
      ensures |order| == |old(troopNameMapping)| && (forall t :: t in order <==> t in old(troopNameMapping))
      ensures forall i, j :: 0 <= i < j < |order| ==> order[i] != order[j]
      ensures troopGraveyard == old(troopGraveyard) + Vanished(order, old(troopNameMapping), roster.counts)
      ensures awayFromPartyTroops == old(awayFromPartyTroops)
      ensures Accounted() == old(Accounted())
    {
      ghost var m0, g0 := troopNameMapping, troopGraveyard;
      var counts := roster.counts;
      order := TrimAll(counts);
      ReconcileDone(m0, counts, g0, m0.Keys, order, troopNameMapping, troopGraveyard);
      Regroup(Flatten(troopNameMapping), Buried(troopGraveyard), Flatten(m0), Buried(g0), FlattenAway(awayFromPartyTroops));
    }

    /** The loop of `CheckValid`: trims every type, in an unspecified order. */
    method TrimAll(counts: map<string, int>) returns (ghost order: seq<string>)
      requires forall t :: t in counts ==> counts[t] >= 0
      modifies this
      ensures ReconcileProgress(old(troopNameMapping), counts, old(troopGraveyard), old(troopNameMapping).Keys,
                                order, troopNameMapping, troopGraveyard)
      ensures awayFromPartyTroops == old(awayFromPartyTroops)
    {
      ghost var m0, g0 := troopNameMapping, troopGraveyard;
      var pending := troopNameMapping.Keys;
      order := [];
      ReconcileStart(m0, counts, g0);
      assert m0.Keys - pending == {};
      while pending != {}
        invariant pending <= m0.Keys
        invariant ReconcileProgress(m0, counts, g0, m0.Keys - pending, order, troopNameMapping, troopGraveyard)
        invariant awayFromPartyTroops == old(awayFromPartyTroops)
        decreases |pending|
      {
        var troopName :| troopName in pending;
        order, pending := TrimStep(counts, m0, g0, order, troopName, pending);
      }
      assert m0.Keys - pending == m0.Keys;
    }

    /** One iteration of `CheckValid`'s loop: trimming one more type keeps
        the loop's bookkeeping. */
    method TrimStep(counts: map<string, int>, ghost m0: TroopMap, ghost g0: seq<DeadTroopInfo>,
                    ghost order: seq<string>, troopName: string, pending: set<string>)
      returns (ghost order': seq<string>, pending': set<string>)
      requires troopName in pending && pending <= m0.Keys
      requires ReconcileProgress(m0, counts, g0, m0.Keys - pending, order, troopNameMapping, troopGraveyard)
      modifies this
      ensures pending' <= m0.Keys && |pending'| < |pending|
      ensures ReconcileProgress(m0, counts, g0, m0.Keys - pending', order', troopNameMapping, troopGraveyard)
      ensures awayFromPartyTroops == old(awayFromPartyTroops)
    {
      ghost var m, g := troopNameMapping, troopGraveyard;
      ghost var visited := m0.Keys - pending;
      assert troopName in m by {
        assert m == Reconciled(m0, counts, visited);
      }
      TrimFront(troopName, Engine.CountOf(counts, troopName));
      order', pending' := order + [troopName], pending - {troopName};
      assert m0.Keys - pending' == visited + {troopName};
      ReconcileStep(m0, counts, g0, visited, order, m, g, troopName, m0.Keys - pending', troopNameMapping, troopGraveyard);
    }

    /** The body of `CheckValid` for one type. */
    method TrimFront(troopName: string, troopCount: int)
      requires troopName in troopNameMapping && troopCount >= 0
      modifies this
      ensures troopNameMapping == old(troopNameMapping)[troopName :=
        old(troopNameMapping)[troopName][Excess(old(troopNameMapping)[troopName], troopCount)..]]
      ensures troopGraveyard == old(troopGraveyard) + Graves(
        old(troopNameMapping)[troopName][..Excess(old(troopNameMapping)[troopName], troopCount)],
        troopName, DeadByProgrammingError)
      ensures awayFromPartyTroops == old(awayFromPartyTroops)
    {
      var namedTroops := troopNameMapping[troopName];
      ghost var all := namedTroops;
      if |namedTroops| == 0 {
        assert troopNameMapping[troopName := all[0..]] == troopNameMapping;
        return;
      }
      ghost var popped := 0;
      assert all[..0] == [] && all[0..] == all;
      assert troopNameMapping[troopName := namedTroops] == troopNameMapping;
      while |namedTroops| > troopCount
        invariant popped <= Excess(all, troopCount) && namedTroops == all[popped..]
        invariant troopNameMapping == old(troopNameMapping)[troopName := namedTroops]
        invariant troopGraveyard == old(troopGraveyard) + Graves(all[..popped], troopName, DeadByProgrammingError)
        invariant awayFromPartyTroops == old(awayFromPartyTroops)
      {
        var troop := namedTroops[0];
        troopGraveyard := troopGraveyard + [MakeDeadTroopInfo(troop, troopName, DeadByProgrammingError)];
        Overwrite(old(troopNameMapping), troopName, namedTroops, namedTroops[1..]);
        namedTroops := namedTroops[1..];
        troopNameMapping := troopNameMapping[troopName := namedTroops];
        assert all[..popped + 1] == all[..popped] + [troop];
        GravesSnoc(all[..popped], troop, troopName, DeadByProgrammingError);
        popped := popped + 1;
      }
    }
  }
}
