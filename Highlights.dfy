/** The end-of-battle highlights: a per-name tally of kills and deaths kept
    while the battle runs, and the scoreboard lines built from it. */
module Highlights {
  import opened Wrappers
  import Engine
  import Text

  /** The value of a `HighlightData` entry. */
  datatype Tally = Tally(kills: int, died: bool)

  /** A name's tally, or the default entry's when the name has none yet. */
  function TallyOf(s: map<string, Tally>, troopName: string): Tally
  {
    if troopName in s then s[troopName] else Tally(0, false)
  }

  /** The named-troop record attached to an optional agent, if any. */
  predicate IsNamed(a: Option<Engine.Agent>, troopName: string)
  {
    a.Some? && a.value.troopInfo.Some? && a.value.troopInfo.value.name == troopName
  }

  /** `_getOrInsertDefault(n).Kills += 1` on a value map. */
  function Bumped(s: map<string, Tally>, troopName: string): (r: map<string, Tally>)
    ensures r.Keys == s.Keys + {troopName}
    ensures TallyOf(r, troopName).kills == TallyOf(s, troopName).kills + 1
    ensures TallyOf(r, troopName).died == TallyOf(s, troopName).died
    ensures forall n :: n != troopName ==> TallyOf(r, n) == TallyOf(s, n)
  {
    var t := TallyOf(s, troopName);
    s[troopName := Tally(t.kills + 1, t.died)]
  }

  /** `_getOrInsertDefault(n).Died = true` on a value map. */
  function MarkedDead(s: map<string, Tally>, troopName: string): (r: map<string, Tally>)
    ensures r.Keys == s.Keys + {troopName}
    ensures TallyOf(r, troopName).kills == TallyOf(s, troopName).kills
    ensures TallyOf(r, troopName).died
    ensures forall n :: n != troopName ==> TallyOf(r, n) == TallyOf(s, n)
  {
    s[troopName := Tally(TallyOf(s, troopName).kills, true)]
  }

  /** The effect of one `OnAgentRemoved` on the tallies. */
  function Removal(s: map<string, Tally>, affected: Option<Engine.Agent>, affector: Option<Engine.Agent>,
                   state: Engine.AgentState): (r: map<string, Tally>)
    // A removal without an affector changes nothing, even a named death.
    ensures affector.None? ==> r == s
    ensures s.Keys <= r.Keys
    // The affector's name gains exactly one kill, whatever the state.
    ensures forall n :: TallyOf(r, n).kills == TallyOf(s, n).kills + (if IsNamed(affector, n) then 1 else 0)
    // A name is marked dead only by a kill of a named agent with an affector.
    ensures forall n :: TallyOf(r, n).died <==>
      TallyOf(s, n).died || (affector.Some? && state == Engine.Killed && IsNamed(affected, n))
  {
    if affector.None? then s
    else
      var s1 := if affector.value.troopInfo.Some? then Bumped(s, affector.value.troopInfo.value.name) else s;
      if state != Engine.Killed then s1
      else if affected.Some? && affected.value.troopInfo.Some? then MarkedDead(s1, affected.value.troopInfo.value.name)
      else s1
  }

  /** One `OnAgentRemoved` call of a battle. */
  datatype RemovalEvent = RemovalEvent(affected: Option<Engine.Agent>, affector: Option<Engine.Agent>, state: Engine.AgentState)

  /** The tallies after a battle's removals, in order. */
  function Replay(s: map<string, Tally>, events: seq<RemovalEvent>): map<string, Tally>
  {
    if events == [] then s
    else
      var e := events[|events| - 1];
      Removal(Replay(s, events[..|events| - 1]), e.affected, e.affector, e.state)
  }

  /** How many removals in `events` were by an agent named `troopName`. */
  function KillsBy(events: seq<RemovalEvent>, troopName: string): nat
  {
    if events == [] then 0
    else KillsBy(events[..|events| - 1], troopName) + (if IsNamed(events[|events| - 1].affector, troopName) then 1 else 0)
  }

  /** Whether some removal in `events` was the death of an agent named
      `troopName` at the hands of some affector. */
  predicate DiedIn(events: seq<RemovalEvent>, troopName: string)
  {
    exists i :: 0 <= i < |events| && events[i].affector.Some? && events[i].state == Engine.Killed
      && IsNamed(events[i].affected, troopName)
  }

  /** Over a whole battle, a name's kill tally counts the removals its
      agents caused, and its death flag records whether one of them was
      killed with an affector present. Stats are keyed by name, so troops
      sharing a name share one tally. */
  lemma {:induction false} ReplayTally(events: seq<RemovalEvent>, troopName: string)
    ensures TallyOf(Replay(map[], events), troopName).kills == KillsBy(events, troopName)
    ensures TallyOf(Replay(map[], events), troopName).died <==> DiedIn(events, troopName)
  {
    if events != [] {
      var prefix, e := events[..|events| - 1], events[|events| - 1];
      ReplayTally(prefix, troopName);
      if DiedIn(prefix, troopName) {
        var i :| 0 <= i < |prefix| && prefix[i].affector.Some? && prefix[i].state == Engine.Killed
          && IsNamed(prefix[i].affected, troopName);
        assert events[i] == prefix[i];
      }
      if DiedIn(events, troopName) {
        var i :| 0 <= i < |events| && events[i].affector.Some? && events[i].state == Engine.Killed
          && IsNamed(events[i].affected, troopName);
        if i < |prefix| {
          assert prefix[i] == events[i];
        }
      }
    }
  }

  /** Tallies only grow: kills never drop and a death is never undone. */
  lemma {:induction false} ReplayMonotone(s: map<string, Tally>, events: seq<RemovalEvent>, troopName: string)
    ensures TallyOf(Replay(s, events), troopName).kills >= TallyOf(s, troopName).kills
    ensures TallyOf(s, troopName).died ==> TallyOf(Replay(s, events), troopName).died
    ensures s.Keys <= Replay(s, events).Keys
  {
    if events != [] {
      ReplayMonotone(s, events[..|events| - 1], troopName);
    }
  }

  // ---------------------------------------------------------------------
  // Messages

  const SpreePrefix := "Killing spree! "

  /** Whether a tally earns a scoreboard line. */
  predicate Noteworthy(data: Tally)
  {
    data.died || data.kills >= 3
  }

  /** `MessageForTroop` as written: the no-kill death line carries a stray
      `$` before the name. */
  function MessageForTroopAsWritten(troopName: string, data: Tally): (r: Option<string>)
    ensures r.None? <==> !Noteworthy(data)
  {
    if data.died then
      if data.kills > 0 then Some(troopName + " died after inflicting " + Text.IntToString(data.kills) + " casualties")
      else Some("$" + troopName + " died.")
    else if data.kills >= 5 then Some(SpreePrefix + troopName + " inflicted " + Text.IntToString(data.kills) + " casualties!")
    else if data.kills >= 3 then Some(troopName + " inflicted " + Text.IntToString(data.kills) + " casualties!")
    else None
  }

  /** `MessageForTroop` as intended: every line except the killing spree
      starts with the troop's name. */
  function MessageForTroop(troopName: string, data: Tally): (r: Option<string>)
    ensures r.None? <==> !Noteworthy(data)
    ensures r.Some? && (data.died || data.kills < 5) ==> |r.value| > |troopName| && r.value[..|troopName|] == troopName
    ensures r.Some? && !data.died && data.kills >= 5 ==>
      |r.value| > |SpreePrefix + troopName| && r.value[..|SpreePrefix + troopName|] == SpreePrefix + troopName
    ensures !(data.died && data.kills <= 0) ==> r == MessageForTroopAsWritten(troopName, data)
  {
    if data.died then
      if data.kills > 0 then Some(troopName + " died after inflicting " + Text.IntToString(data.kills) + " casualties")
      else Some(troopName + " died.")
    else if data.kills >= 5 then Some(SpreePrefix + troopName + " inflicted " + Text.IntToString(data.kills) + " casualties!")
    else if data.kills >= 3 then Some(troopName + " inflicted " + Text.IntToString(data.kills) + " casualties!")
    else None
  }

  /** On the tier of a troop that died without a kill, the written line
      differs from the intended one for every name: it is one character
      longer and begins with `$`. */
  lemma DollarSignFinding(troopName: string, kills: int)
    requires kills <= 0
    ensures MessageForTroopAsWritten(troopName, Tally(kills, true)) != MessageForTroop(troopName, Tally(kills, true))
    ensures MessageForTroopAsWritten(troopName, Tally(kills, true)).value[0] == '$'
  {
    var w := MessageForTroopAsWritten(troopName, Tally(kills, true)).value;
    var c := MessageForTroop(troopName, Tally(kills, true)).value;
    assert |w| == |c| + 1;
  }

  /** A concrete instance: the troop "Bob" who died without a kill. */
  lemma DollarSignExample()
    ensures MessageForTroopAsWritten("Bob", Tally(0, true)) == Some("$Bob died.")
    ensures MessageForTroop("Bob", Tally(0, true)) == Some("Bob died.")
  {
    assert "$" + "Bob" + " died." == "$Bob died.";
    assert "Bob" + " died." == "Bob died.";
  }

  /** Where a line reports a kill count, the count can be read back from it:
      it sits between the fixed text after the name and the fixed ending. */
  lemma MessageReportsKills(troopName: string, data: Tally)
    requires data.kills >= 3 || (data.died && data.kills > 0)
    ensures var r := MessageForTroop(troopName, data).value;
      var start := if data.died then |troopName + " died after inflicting "|
                   else if data.kills >= 5 then |SpreePrefix + troopName + " inflicted "|
                   else |troopName + " inflicted "|;
      var ending := if data.died then |" casualties"| else |" casualties!"|;
      && start + 1 + ending <= |r|
      && Text.ParseInt(r[start..|r| - ending]) == data.kills
  {
    var r := MessageForTroop(troopName, data).value;
    var k := Text.IntToString(data.kills);
    if data.died {
      var head := troopName + " died after inflicting ";
      assert r == head + k + " casualties";
      assert r[|head|..|r| - |" casualties"|] == k;
    } else if data.kills >= 5 {
      var head := SpreePrefix + troopName + " inflicted ";
      assert r == head + k + " casualties!";
      assert r[|head|..|r| - |" casualties!"|] == k;
    } else {
      var head := troopName + " inflicted ";
      assert r == head + k + " casualties!";
      assert r[|head|..|r| - |" casualties!"|] == k;
    }
    Text.ParseIntToString(data.kills);
  }

  // ---------------------------------------------------------------------
  // Sorting and filtering the results

  /** One `KeyValuePair` of the stats list. */
  datatype Entry = Entry(troopName: string, data: Tally)

  /** Non-decreasing kill order, the order of the comparison
      `x.Kills - y.Kills`. */
  predicate SortedByKills(s: seq<Entry>)
  {
    forall i, j :: 0 <= i < j < |s| ==> s[i].data.kills <= s[j].data.kills
  }

  /** Inserts `e` before the first entry with at least as many kills. */
  function Insert(e: Entry, s: seq<Entry>): (r: seq<Entry>)
    requires SortedByKills(s)
    ensures SortedByKills(r)
    ensures multiset(r) == multiset(s) + multiset{e}
    ensures |r| == |s| + 1
  {
    if s == [] then [e]
    else if e.data.kills <= s[0].data.kills then
      ConsSorted(e, s);
      [e] + s
    else
      var rest := Insert(e, s[1..]);
      assert s == [s[0]] + s[1..];
      BoundedBelow(s[0], e, s[1..], rest);
      ConsSorted(s[0], rest);
      [s[0]] + rest
  }

  lemma ConsSorted(x: Entry, s: seq<Entry>)
    requires SortedByKills(s)
    requires forall j :: 0 <= j < |s| ==> x.data.kills <= s[j].data.kills
    ensures SortedByKills([x] + s)
  {
    var r := [x] + s;
    forall i, j | 0 <= i < j < |r|
      ensures r[i].data.kills <= r[j].data.kills
    {
      assert r[j] == s[j - 1];
      if i > 0 {
        assert r[i] == s[i - 1];
      }
    }
  }

  /** A lower bound of `s` and of `e` bounds any permutation of `s` plus `e`. */
  lemma BoundedBelow(x: Entry, e: Entry, s: seq<Entry>, rest: seq<Entry>)
    requires x.data.kills <= e.data.kills
    requires forall j :: 0 <= j < |s| ==> x.data.kills <= s[j].data.kills
    requires multiset(rest) == multiset(s) + multiset{e}
    ensures forall j :: 0 <= j < |rest| ==> x.data.kills <= rest[j].data.kills
  {
    forall j | 0 <= j < |rest|
      ensures x.data.kills <= rest[j].data.kills
    {
      assert rest[j] in multiset(rest);
      if rest[j] != e {
        assert rest[j] in multiset(s);
        var k :| 0 <= k < |s| && s[k] == rest[j];
      }
    }
  }

  /** The sort of `ShowBattleResults`. `List.Sort` is not stable, so the
      order of entries with equal kills is unspecified there; this one
      sort is a particular resolution of that freedom. */
  function SortByKills(s: seq<Entry>): (r: seq<Entry>)
    ensures SortedByKills(r)
    ensures multiset(r) == multiset(s)
  {
    if s == [] then []
    else
      assert s == [s[0]] + s[1..];
      Insert(s[0], SortByKills(s[1..]))
  }

  /** The entries that earn a line, in their order (`NoteworthyAppend`);
      `NoteworthyCounts` says each is kept as many times as it occurs in `s`. */
  function NoteworthyEntries(s: seq<Entry>): (r: seq<Entry>)
    ensures forall i :: 0 <= i < |r| ==> Noteworthy(r[i].data)
    ensures forall e :: e in s && Noteworthy(e.data) <==> e in r
    ensures |r| <= |s|
  {
    if s == [] then []
    else
      var last := s[|s| - 1];
      var init := NoteworthyEntries(s[..|s| - 1]);
      assert s == s[..|s| - 1] + [last];
      if Noteworthy(last.data) then init + [last] else init
  }

  /** The filter keeps every noteworthy entry as often as it occurs, and
      drops every other entry. */
  lemma {:induction false} NoteworthyCounts(s: seq<Entry>)
    ensures forall e :: multiset(NoteworthyEntries(s))[e] == if Noteworthy(e.data) then multiset(s)[e] else 0
  {
    if s != [] {
      var front, last := s[..|s| - 1], s[|s| - 1];
      NoteworthyCounts(front);
      assert s == front + [last];
      assert multiset(s) == multiset(front) + multiset{last};
    }
  }

  /** Filtering one more entry at the end adds it, or nothing. */
  lemma NoteworthySnoc(s: seq<Entry>, x: Entry)
    ensures NoteworthyEntries(s + [x]) == NoteworthyEntries(s) + if Noteworthy(x.data) then [x] else []
  {
    var sx := s + [x];
    assert sx[..|sx| - 1] == s;
  }

  /** The concatenation step of `NoteworthyAppend`, on the filtered values. */
  lemma FilterStep(nab: seq<Entry>, naf: seq<Entry>, na: seq<Entry>, nf: seq<Entry>, nb: seq<Entry>, t: seq<Entry>)
    requires nab == naf + t && naf == na + nf && nb == nf + t
    ensures nab == na + nb
  {}

  /** Filtering keeps the entries in their order: it distributes over
      concatenation. */
  lemma {:induction false} NoteworthyAppend(a: seq<Entry>, b: seq<Entry>)
    ensures NoteworthyEntries(a + b) == NoteworthyEntries(a) + NoteworthyEntries(b)
    decreases |b|
  {
    if b == [] {
      assert a + b == a;
    } else {
      var front, last := b[..|b| - 1], b[|b| - 1];
      var af := a + front;
      assert a + b == af + [last];
      NoteworthyAppend(a, front);
      NoteworthySnoc(af, last);
      NoteworthySnoc(front, last);
      assert b == front + [last];
      FilterStep(NoteworthyEntries(a + b), NoteworthyEntries(af), NoteworthyEntries(a), NoteworthyEntries(front), NoteworthyEntries(b), if Noteworthy(last.data) then [last] else []);
    }
  }

  /** Filtering keeps the order by kills. */
  lemma {:induction false} NoteworthySorted(s: seq<Entry>)
    requires SortedByKills(s)
    ensures SortedByKills(NoteworthyEntries(s))
  {
    if s != [] {
      var front, last := s[..|s| - 1], s[|s| - 1];
      var init := NoteworthyEntries(front);
      assert SortedByKills(front);
      NoteworthySorted(front);
      if Noteworthy(last.data) {
        forall e | e in init
          ensures e.data.kills <= last.data.kills
        {
          var i :| 0 <= i < |front| && front[i] == e;
          assert s[i] == e;
        }
        var r := init + [last];
        forall i, j | 0 <= i < j < |r|
          ensures r[i].data.kills <= r[j].data.kills
        {
          if j == |init| {
            assert r[i] in init;
          }
        }
      }
    }
  }

  /** The `Select(MessageForTroop).Where(message != null)` pipeline, with the
      messages as written (the no-kill death line starts with `$`). */
  function Results(s: seq<Entry>): (r: seq<string>)
    ensures |r| == |NoteworthyEntries(s)|
    ensures forall k :: 0 <= k < |r| ==>
      Some(r[k]) == MessageForTroopAsWritten(NoteworthyEntries(s)[k].troopName, NoteworthyEntries(s)[k].data)
  {
    if s == [] then []
    else
      var last := s[|s| - 1];
      var m := MessageForTroopAsWritten(last.troopName, last.data);
      var init := Results(s[..|s| - 1]);
      if m.Some? then init + [m.value] else init
  }

  /** The scoreboard as written differs from the intended messages exactly
      on the lines of troops that died without a kill. */
  lemma ResultsAgreeExceptDollar(s: seq<Entry>)
    ensures forall k :: 0 <= k < |Results(s)| ==>
      var e := NoteworthyEntries(s)[k];
      (Some(Results(s)[k]) == MessageForTroop(e.troopName, e.data) <==> !(e.data.died && e.data.kills <= 0))
  {
    var w := NoteworthyEntries(s);
    forall k | 0 <= k < |Results(s)|
      ensures Some(Results(s)[k]) == MessageForTroop(w[k].troopName, w[k].data) <==> !(w[k].data.died && w[k].data.kills <= 0)
    {
      if w[k].data.died && w[k].data.kills <= 0 {
        DollarSignFinding(w[k].troopName, w[k].data.kills);
        assert w[k].data == Tally(w[k].data.kills, true);
      }
    }
  }

  /** The entries of `stats` listed in the order `order`. */
  function EntriesOf(order: seq<string>, stats: map<string, Tally>): (r: seq<Entry>)
    requires forall i :: 0 <= i < |order| ==> order[i] in stats
    ensures |r| == |order|
    ensures forall i :: 0 <= i < |r| ==> r[i] == Entry(order[i], stats[order[i]])
  {
    if order == [] then []
    else EntriesOf(order[..|order| - 1], stats) + [Entry(order[|order| - 1], stats[order[|order| - 1]])]
  }

  // ---------------------------------------------------------------------
  // The behaviour

  /** One name's mutable tally. */
  class HighlightData {
    var kills: int
    var died: bool

    constructor ()
      ensures kills == 0 && !died
    {
      kills := 0;
      died := false;
    }
  }

  class HighlightsMissionBehavior {
    var battleStats: map<string, HighlightData>

    /** Each name has its own `HighlightData` object. */
    ghost predicate Valid()
      reads this
    {
      forall a, b :: a in battleStats && b in battleStats && a != b ==> battleStats[a] != battleStats[b]
    }

    /** The tallies the objects currently hold. */
    ghost function Stats(): map<string, Tally>
      reads this, battleStats.Values
    {
      map n | n in battleStats :: Tally(battleStats[n].kills, battleStats[n].died)
    }

    constructor ()
      ensures Valid() && battleStats == map[] && Stats() == map[]
    {
      battleStats := map[];
    }

    /** `_getOrInsertDefault`: the existing entry, or a fresh zero entry
        inserted under the name. */
    method GetOrInsertDefault(troopName: string) returns (stats: HighlightData)
      requires Valid()
      modifies this
      ensures Valid()
      ensures troopName in battleStats && stats == battleStats[troopName]
      ensures troopName in old(battleStats) ==> battleStats == old(battleStats)
      ensures troopName !in old(battleStats) ==>
        fresh(stats) && battleStats == old(battleStats)[troopName := stats]
      ensures fresh(battleStats.Values - old(battleStats.Values))
      ensures Stats() == old(Stats())[troopName := TallyOf(old(Stats()), troopName)]
    {
      if troopName in battleStats {
        stats := battleStats[troopName];
        assert Stats() == Stats()[troopName := TallyOf(Stats(), troopName)];
        return;
      }
      stats := new HighlightData();
      battleStats := battleStats[troopName := stats];
    }

    method BumpKills(troopName: string)
      requires Valid()
      modifies this, battleStats.Values
      ensures Valid()
      ensures Stats() == Bumped(old(Stats()), troopName)
      ensures fresh(battleStats.Values - old(battleStats.Values))
    {
      var stats := GetOrInsertDefault(troopName);
      ghost var before := TallyOf(old(Stats()), troopName);
      assert Stats()[troopName] == Tally(stats.kills, stats.died) == before;
      IncrementKills(troopName, stats);
      Overwrite(old(Stats()), troopName, before, Tally(before.kills + 1, before.died));
    }

    method MarkDied(troopName: string)
      requires Valid()
      modifies this, battleStats.Values
      ensures Valid()
      ensures Stats() == MarkedDead(old(Stats()), troopName)
    {
      var stats := GetOrInsertDefault(troopName);
      ghost var before := TallyOf(old(Stats()), troopName);
      assert Stats()[troopName] == Tally(stats.kills, stats.died) == before;
      SetDied(troopName, stats);
      Overwrite(old(Stats()), troopName, before, Tally(before.kills, true));
    }

    /** `stats.Kills++` on the entry of `troopName`: only its tally moves. */
    method IncrementKills(troopName: string, stats: HighlightData)
      requires Valid() && troopName in battleStats && stats == battleStats[troopName]
      modifies stats
      ensures Valid()
      ensures Stats() == old(Stats())[troopName := Tally(old(stats.kills) + 1, old(stats.died))]
      ensures stats.kills == old(stats.kills) + 1 && stats.died == old(stats.died)
    {
      ghost var s := Stats();
      ghost var t := Tally(stats.kills + 1, stats.died);
      stats.kills := stats.kills + 1;
      forall n | n in battleStats
        ensures Stats()[n] == s[troopName := t][n]
      {
        if n != troopName {
          assert battleStats[n] != stats;
        }
      }
      assert Stats() == s[troopName := t];
    }

    /** `stats.Died = true` on the entry of `troopName`: only its tally moves. */
    method SetDied(troopName: string, stats: HighlightData)
      requires Valid() && troopName in battleStats && stats == battleStats[troopName]
      modifies stats
      ensures Valid()
      ensures Stats() == old(Stats())[troopName := Tally(old(stats.kills), true)]
      ensures stats.kills == old(stats.kills) && stats.died
    {
      ghost var s := Stats();
      ghost var t := Tally(stats.kills, true);
      stats.died := true;
      forall n | n in battleStats
        ensures Stats()[n] == s[troopName := t][n]
      {
        if n != troopName {
          assert battleStats[n] != stats;
        }
      }
      assert Stats() == s[troopName := t];
    }

    /** Records one agent's removal from the battle. */
    method OnAgentRemoved(affected: Option<Engine.Agent>, affector: Option<Engine.Agent>, state: Engine.AgentState)
      requires Valid()
      modifies this, battleStats.Values
      ensures Valid()
      ensures Stats() == Removal(old(Stats()), affected, affector, state)
    {
      if affector.None? {
        return;
      }
      if affector.value.troopInfo.Some? {
        BumpKills(affector.value.troopInfo.value.name);
      }
      if state != Engine.Killed {
        return;
      }
      if affected.Some? && affected.value.troopInfo.Some? {
        MarkDied(affected.value.troopInfo.value.name);
      }
    }

    /** The scoreboard lines, or none when the battle has no scoreboard.
        The stats are listed in the dictionary's enumeration order, which
        is unspecified (returned as `order`), then sorted by kills, and
        each noteworthy entry gives one line. */
    method ShowBattleResults(hasScoreboard: bool) returns (messages: seq<string>, ghost order: seq<string>)
      ensures !hasScoreboard ==> messages == []
      ensures hasScoreboard ==> |order| == |Stats()|
      ensures hasScoreboard ==> forall n :: n in order <==> n in Stats()
      ensures hasScoreboard ==> forall i, j :: 0 <= i < j < |order| ==> order[i] != order[j]
      ensures hasScoreboard ==> messages == Results(SortByKills(EntriesOf(order, Stats())))
    {
      if !hasScoreboard {
        return [], [];
      }
      var statsList;
      statsList, order := ToList();
      var sorted := SortByKills(statsList);
      messages := MessagesOf(sorted);
    }

    /** `_battleStats.ToList()`, in an unspecified enumeration order. */
    method ToList() returns (statsList: seq<Entry>, ghost order: seq<string>)
      ensures |order| == |Stats()|
      ensures forall n :: n in order <==> n in Stats()
      ensures forall i, j :: 0 <= i < j < |order| ==> order[i] != order[j]
      ensures statsList == EntriesOf(order, Stats())
    {
      ghost var st := Stats();
      assert st.Keys == battleStats.Keys;
      assert |st| == |st.Keys|;
      statsList, order := [], [];
      var pending := battleStats.Keys;
      while pending != {}
        invariant pending <= st.Keys
        invariant forall n :: n in order <==> n in st && n !in pending
        invariant forall i, j :: 0 <= i < j < |order| ==> order[i] != order[j]
        invariant |order| + |pending| == |st|
        invariant statsList == EntriesOf(order, st)
        decreases pending
      {
        var n :| n in pending;
        assert st[n] == Tally(battleStats[n].kills, battleStats[n].died);
        statsList := statsList + [Entry(n, Tally(battleStats[n].kills, battleStats[n].died))];
        assert (order + [n])[..|order|] == order;
        order := order + [n];
        pending := pending - {n};
      }
    }
  }

  /** The message loop of `ShowBattleResults`. */
  method MessagesOf(sorted: seq<Entry>) returns (messages: seq<string>)
    ensures messages == Results(sorted)
  {
    messages := [];
    var i := 0;
    while i < |sorted|
      invariant 0 <= i <= |sorted|
      invariant messages == Results(sorted[..i])
    {
      assert sorted[..i + 1][..i] == sorted[..i];
      var m := MessageForTroopAsWritten(sorted[i].troopName, sorted[i].data);
      if m.Some? {
        messages := messages + [m.value];
      }
      i := i + 1;
    }
    assert sorted[..|sorted|] == sorted;
  }

  /** The lines come out in non-decreasing kill order, one per noteworthy
      entry (counted with its multiplicity), with the unremarkable entries
      skipped. */
  lemma ResultsOrdered(entries: seq<Entry>)
    ensures var w := NoteworthyEntries(SortByKills(entries));
      && SortedByKills(w)
      && |Results(SortByKills(entries))| == |w|
      && (forall e :: e in entries && Noteworthy(e.data) <==> e in w)
      && (forall e :: multiset(w)[e] == if Noteworthy(e.data) then multiset(entries)[e] else 0)
  {
    var sorted := SortByKills(entries);
    forall e
      ensures e in entries <==> e in sorted
    {
      assert e in entries <==> e in multiset(entries);
      assert e in sorted <==> e in multiset(sorted);
    }
    NoteworthySorted(sorted);
    NoteworthyCounts(sorted);
  }
}
