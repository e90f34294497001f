/** The party screen hook: it nets out the troop transfers the player makes
    on the screen and, when the player confirms, turns each troop type's net
    transfer into calls on the named-troop registry. */
module PartyScreen {
  import Wrappers
  import Engine
  import Models
  import TroopNames

  /** `PartyScreenLogic.TroopType`. */
  datatype TroopType = None | Member | Prisoner

  /** `PartyScreenLogic.PartyCommandCode`: the two codes the hook reacts
      to, and every other code as one. */
  datatype PartyCommandCode = TransferTroop | RecruitTroop | OtherCode

  /** `PartyScreenLogic.PartyRosterSide`. */
  datatype RosterSide = None | Left | Right

  /** What the hook reads of a `PartyCommand`. */
  datatype Command = Command(troopType: TroopType, code: PartyCommandCode, rosterSide: RosterSide,
                             character: string, totalNumber: int)

  /** Whether the `Update` handler counts a command. */
  predicate Counted(c: Command)
  {
    c.troopType != Prisoner && (c.code == TransferTroop || c.code == RecruitTroop)
  }

  /** A command's effect on its character's net count: towards the right
      (the player's own roster) counts up, anything else counts down. */
  function Signed(c: Command): int
  {
    if c.rosterSide == Right then c.totalNumber else -c.totalNumber
  }

  /** The `Update` handler's rule on the counts. */
  function UpdatedCounts(counts: map<string, int>, c: Command): (r: map<string, int>)
    ensures !Counted(c) ==> r == counts
    ensures Counted(c) ==> r.Keys == counts.Keys + {c.character}
    ensures Counted(c) ==> Engine.CountOf(r, c.character) == Engine.CountOf(counts, c.character) + Signed(c)
    ensures forall t :: t != c.character ==> Engine.CountOf(r, t) == Engine.CountOf(counts, t)
  {
    if !Counted(c) then counts
    else counts[c.character := Engine.CountOf(counts, c.character) + Signed(c)]
  }

  /** The counts after a sequence of commands. */
  function Replay(counts: map<string, int>, commands: seq<Command>): map<string, int>
  {
    if commands == [] then counts
    else UpdatedCounts(Replay(counts, commands[..|commands| - 1]), commands[|commands| - 1])
  }

  /** The sum of the signed amounts of the counted commands for `character`. */
  function NetTransfer(commands: seq<Command>, character: string): int
  {
    if commands == [] then 0
    else
      var c := commands[|commands| - 1];
      NetTransfer(commands[..|commands| - 1], character)
        + (if Counted(c) && c.character == character then Signed(c) else 0)
  }

  /** Since the last reset, a character's count is the net of the transfers
      made for it, whatever the other characters did. */
  lemma {:induction false} ReplayNet(commands: seq<Command>, character: string)
    ensures Engine.CountOf(Replay(map[], commands), character) == NetTransfer(commands, character)
  {
    if commands != [] {
      ReplayNet(commands[..|commands| - 1], character);
    }
  }

  /** A manager call the done handler issues. */
  datatype Call = Abandon(troopType: string) | Leave(troopType: string, party: string) | Return(troopType: string, party: string)

  /** `n` copies of `c`. */
  function Repeat(c: Call, n: nat): (r: seq<Call>)
    ensures |r| == n && forall i :: 0 <= i < n ==> r[i] == c
  {
    if n == 0 then [] else Repeat(c, n - 1) + [c]
  }

  /** The calls of one iteration of the inner loop for a character whose
      net count is `count`, when that count is not zero. */
  function StepCall(troopType: string, count: int, leftParty: Wrappers.Option<string>): Wrappers.Option<Call>
  {
    if leftParty.None? then (if count > 0 then Wrappers.Some(Abandon(troopType)) else Wrappers.None)
    else if count > 0 then Wrappers.Some(Leave(troopType, leftParty.value))
    else Wrappers.Some(Return(troopType, leftParty.value))
  }

  /** The calls the done handler issues for one character: one per
      iteration of its `|count|` iterations, except that without a left
      party a negative count issues none. */
  function CallsFor(troopType: string, count: int, leftParty: Wrappers.Option<string>): (r: seq<Call>)
    ensures leftParty.Some? ==> |r| == if count >= 0 then count else -count
    ensures leftParty.None? ==> |r| == if count > 0 then count else 0
    ensures leftParty.None? ==> forall i :: 0 <= i < |r| ==> r[i] == Abandon(troopType)
    ensures leftParty.Some? && count > 0 ==> forall i :: 0 <= i < |r| ==> r[i] == Leave(troopType, leftParty.value)
    ensures leftParty.Some? && count < 0 ==> forall i :: 0 <= i < |r| ==> r[i] == Return(troopType, leftParty.value)
  {
    var n: nat := if count >= 0 then count else -count;
    var step := StepCall(troopType, count, leftParty);
    if step.None? then [] else Repeat(step.value, n)
  }

  /** The calls for every character, visited in `order`. */
  function AllCalls(order: seq<string>, counts: map<string, int>, leftParty: Wrappers.Option<string>): seq<Call>
  {
    if order == [] then []
    else
      var t := order[|order| - 1];
      AllCalls(order[..|order| - 1], counts, leftParty) + CallsFor(t, Engine.CountOf(counts, t), leftParty)
  }

  /** What the done handler sees of the registry and the roster copy. */
  datatype Snapshot = Snapshot(mapping: TroopNames.TroopMap, away: TroopNames.AwayMap,
                               graveyard: seq<Models.DeadTroopInfo>, roster: map<string, int>)

  /** The troop a draw of `index` removes from `s`, if one must go. */
  function Drawn(troopType: string, s: Snapshot, index: nat): Wrappers.Option<Models.CustomTroopInfo>
  {
    var troops := TroopNames.Named(s.mapping, troopType);
    if TroopNames.MustRemove(s.mapping, troopType, Engine.CountOf(s.roster, troopType)) && index < |troops|
    then Wrappers.Some(troops[index]) else Wrappers.None
  }

  /** `TroopAbandoned`: one head of the type leaves the roster copy and, when
      the names outnumber the heads, the troop the draw chose at `index` is
      buried as having gone its separate way. */
  ghost predicate Abandoned(troopType: string, s: Snapshot, s': Snapshot, index: nat)
  {
    var removed := Drawn(troopType, s, index);
    && TroopNames.RandomRemoval(s.mapping, troopType, Engine.CountOf(s.roster, troopType), s'.mapping, removed, index)
    && s'.roster == s.roster[troopType := Engine.CountOf(s.roster, troopType) - 1]
    && s'.graveyard == s.graveyard +
         (if removed.Some? then [Models.DeadTroopInfo(removed.value, troopType, TroopNames.WentSeparateWays)] else [])
    && s'.away == s.away
  }

  /** `TroopLeavesParty`: the same removal, with the chosen troop filed under
      `party` instead of buried. */
  ghost predicate LeftBehind(troopType: string, party: string, s: Snapshot, s': Snapshot, index: nat)
  {
    var removed := Drawn(troopType, s, index);
    && TroopNames.RandomRemoval(s.mapping, troopType, Engine.CountOf(s.roster, troopType), s'.mapping, removed, index)
    && s'.roster == s.roster[troopType := Engine.CountOf(s.roster, troopType) - 1]
    && s'.away == (if removed.Some? then TroopNames.LeftWith(s.away, party, troopType, removed.value) else s.away)
    && s'.graveyard == s.graveyard
  }

  /** `TroopReturnsToParty`: the first troop of the type left with `party`
      rejoins the mapping at the end of its list; nothing happens when none
      is left there. */
  ghost predicate Rejoined(troopType: string, party: string, s: Snapshot, s': Snapshot)
  {
    var away := TroopNames.Named(TroopNames.PartyTroops(s.away, party), troopType);
    && s'.roster == s.roster
    && s'.graveyard == s.graveyard
    && (if |away| == 0 then s'.mapping == s.mapping && s'.away == s.away
        else (s'.mapping == TroopNames.Appended(s.mapping, troopType, away[0])
              && s'.away == TroopNames.TakenBack(s.away, party, troopType)))
  }

  /** What `TroopAbandoned` promises is the effect of an `Abandon` call. */
  lemma AbandonEffect(troopType: string, s: Snapshot, s': Snapshot,
                      removed: Wrappers.Option<Models.CustomTroopInfo>, index: nat)
    requires TroopNames.RandomRemoval(s.mapping, troopType, Engine.CountOf(s.roster, troopType), s'.mapping, removed, index)
    requires s'.roster == s.roster[troopType := Engine.CountOf(s.roster, troopType) - 1]
    requires s'.graveyard == s.graveyard +
               (if removed.Some? then [Models.DeadTroopInfo(removed.value, troopType, TroopNames.WentSeparateWays)] else [])
    requires s'.away == s.away
    ensures Effect(Abandon(troopType), s, s')
  {
    assert Drawn(troopType, s, index) == removed;
    assert Abandoned(troopType, s, s', index);
  }

  /** What `TroopLeavesParty` promises is the effect of a `Leave` call. */
  lemma LeaveEffect(troopType: string, party: string, s: Snapshot, s': Snapshot,
                    removed: Wrappers.Option<Models.CustomTroopInfo>, index: nat)
    requires TroopNames.RandomRemoval(s.mapping, troopType, Engine.CountOf(s.roster, troopType), s'.mapping, removed, index)
    requires s'.roster == s.roster[troopType := Engine.CountOf(s.roster, troopType) - 1]
    requires s'.away == (if removed.Some? then TroopNames.LeftWith(s.away, party, troopType, removed.value) else s.away)
    requires s'.graveyard == s.graveyard
    ensures Effect(Leave(troopType, party), s, s')
  {
    assert Drawn(troopType, s, index) == removed;
    assert LeftBehind(troopType, party, s, s', index);
  }

  /** What `TroopReturnsToParty` promises is the effect of a `Return` call. */
  lemma ReturnEffect(troopType: string, party: string, s: Snapshot, s': Snapshot)
    requires var away := TroopNames.Named(TroopNames.PartyTroops(s.away, party), troopType);
      if |away| == 0 then s'.mapping == s.mapping && s'.away == s.away
      else (s'.mapping == TroopNames.Appended(s.mapping, troopType, away[0])
            && s'.away == TroopNames.TakenBack(s.away, party, troopType))
    requires s'.graveyard == s.graveyard && s'.roster == s.roster
    ensures Effect(Return(troopType, party), s, s')
  {
  }

  /** The registry effect of one call, whichever troop the draw chose. */
  ghost predicate Effect(call: Call, s: Snapshot, s': Snapshot)
  {
    match call
    case Abandon(troopType) => exists index :: Abandoned(troopType, s, s', index)
    case Leave(troopType, party) => exists index :: LeftBehind(troopType, party, s, s', index)
    case Return(troopType, party) => Rejoined(troopType, party, s, s')
  }

  /** `states` is the run of registry states the calls went through, each
      call taking the state before it to the state after it. */
  ghost predicate Chain(calls: seq<Call>, states: seq<Snapshot>)
  {
    && |states| == |calls| + 1
    && forall k :: 0 <= k < |calls| ==> Effect(calls[k], states[k], states[k + 1])
  }

  /** Before any call, the run is the one state. */
  lemma ChainStart(s: Snapshot)
    ensures Chain([], [s]) && [s][0] == s
  {
  }

  /** One more call extends the run. */
  lemma ChainSnoc(calls: seq<Call>, states: seq<Snapshot>, call: Call, s': Snapshot)
    requires Chain(calls, states)
    requires Effect(call, states[|states| - 1], s')
    ensures Chain(calls + [call], states + [s'])
    ensures (states + [s'])[0] == states[0]
  {
    var calls', states' := calls + [call], states + [s'];
    forall k | 0 <= k < |calls'|
      ensures Effect(calls'[k], states'[k], states'[k + 1])
    {
      if k < |calls| {
        assert calls'[k] == calls[k] && states'[k] == states[k] && states'[k + 1] == states[k + 1];
      }
    }
  }

  /** Two runs that meet make one. */
  lemma ChainAppend(calls: seq<Call>, states: seq<Snapshot>, more: seq<Call>, states2: seq<Snapshot>)
    requires Chain(calls, states) && Chain(more, states2)
    requires states[|states| - 1] == states2[0]
    ensures Chain(calls + more, states + states2[1..])
    ensures (states + states2[1..])[0] == states[0]
    ensures (states + states2[1..])[|calls + more|] == states2[|states2| - 1]
  {
    var calls', states' := calls + more, states + states2[1..];
    forall k | 0 <= k < |calls'|
      ensures Effect(calls'[k], states'[k], states'[k + 1])
    {
      if k < |calls| {
        assert calls'[k] == calls[k] && states'[k] == states[k] && states'[k + 1] == states[k + 1];
      } else {
        assert calls'[k] == more[k - |calls|];
        assert states'[k] == states2[k - |calls|] && states'[k + 1] == states2[k - |calls| + 1];
      }
    }
  }

  /** How much the shared roster copy goes down for a net count: removals
      happen only for positive counts, one head per call. */
  function Removals(count: int): nat
  {
    if count > 0 then count else 0
  }

  /** What the done handler has done once it has visited the characters in
      `visited`, in the order `order`: the calls so far, and the roster
      copy `r` decremented for the visited characters only. */
  ghost predicate DoneProgress(counts: map<string, int>, leftParty: Wrappers.Option<string>, r0: map<string, int>,
                               visited: set<string>, order: seq<string>, calls: seq<Call>, r: map<string, int>)
  {
    && visited <= counts.Keys
    && |order| == |visited|
    && (forall t :: t in order <==> t in visited)
    && (forall i, j :: 0 <= i < j < |order| ==> order[i] != order[j])
    && calls == AllCalls(order, counts, leftParty)
    && (forall t :: Engine.CountOf(r, t) ==
          Engine.CountOf(r0, t) - (if t in visited then Removals(Engine.CountOf(counts, t)) else 0))
  }

  /** Before any character is visited, nothing is called or removed. */
  lemma DoneStart(counts: map<string, int>, leftParty: Wrappers.Option<string>, r0: map<string, int>)
    ensures DoneProgress(counts, leftParty, r0, {}, [], [], r0)
  {
  }

  /** Visiting one more character keeps `DoneProgress`. */
  lemma DoneStep(counts: map<string, int>, leftParty: Wrappers.Option<string>, r0: map<string, int>,
                 visited: set<string>, order: seq<string>, calls: seq<Call>, r: map<string, int>,
                 t: string, visited1: set<string>, more: seq<Call>, r1: map<string, int>)
    requires DoneProgress(counts, leftParty, r0, visited, order, calls, r)
    requires t in counts && t !in visited && visited1 == visited + {t}
    requires more == CallsFor(t, counts[t], leftParty)
    requires Engine.CountOf(r1, t) == Engine.CountOf(r, t) - Removals(counts[t])
    requires forall u :: u != t ==> Engine.CountOf(r1, u) == Engine.CountOf(r, u)
    ensures DoneProgress(counts, leftParty, r0, visited1, order + [t], calls + more, r1)
  {
    TroopNames.OrderSnoc(order, visited, t);
    assert (order + [t])[..|order|] == order;
    assert AllCalls(order + [t], counts, leftParty) == calls + more;
    forall u
      ensures Engine.CountOf(r1, u) ==
        Engine.CountOf(r0, u) - (if u in visited1 then Removals(Engine.CountOf(counts, u)) else 0)
    {
      if u == t {
        assert Engine.CountOf(counts, t) == counts[t];
      }
    }
  }

  lemma DoneFinish(counts: map<string, int>, leftParty: Wrappers.Option<string>, r0: map<string, int>,
                   visited: set<string>, order: seq<string>, calls: seq<Call>, r: map<string, int>)
    requires DoneProgress(counts, leftParty, r0, visited, order, calls, r)
    requires visited == counts.Keys
    ensures |order| == |counts| && (forall t :: t in order <==> t in counts)
    ensures forall i, j :: 0 <= i < j < |order| ==> order[i] != order[j]
    ensures calls == AllCalls(order, counts, leftParty)
    ensures forall t :: Engine.CountOf(r, t) == Engine.CountOf(r0, t) - Removals(Engine.CountOf(counts, t))
  {
    forall t
      ensures Engine.CountOf(r, t) == Engine.CountOf(r0, t) - Removals(Engine.CountOf(counts, t))
    {
      if t !in counts {
        assert Engine.CountOf(counts, t) == 0;
      }
    }
  }

  /** The party screen's state as the hook sees it. */
  class PartyScreenOverride {
    /** The registry, or null when the campaign has none; then no handler
        is attached and the screen does nothing to the registry. */
    const manager: TroopNames.CustomTroopNameManager?
    /** The copy of the main party's roster taken when the screen opened. */
    const rosterCopy: Engine.Roster
    var transferCounts: map<string, int>

    constructor (manager: TroopNames.CustomTroopNameManager?, memberCounts: map<string, int>)
      ensures this.manager == manager && fresh(rosterCopy) && rosterCopy.counts == memberCounts
      ensures transferCounts == map[]
    {
      this.manager := manager;
      rosterCopy := new Engine.Roster(memberCounts);
      transferCounts := map[];
    }

    /** The registry and the roster copy as the done handler sees them. */
    ghost function Now(): Snapshot
      requires manager != null
      reads manager, rosterCopy
    {
      Snapshot(manager.troopNameMapping, manager.awayFromPartyTroops, manager.troopGraveyard, rosterCopy.counts)
    }

    /** The `Update` handler. */
    method Update(command: Command)
      modifies this
      ensures transferCounts == if manager != null then UpdatedCounts(old(transferCounts), command) else old(transferCounts)
    {
      if manager == null {
        return;
      }
      if command.troopType == Prisoner || !(command.code == TransferTroop || command.code == RecruitTroop) {
        return;
      }
      var prevCount := if command.character in transferCounts then transferCounts[command.character] else 0;
      transferCounts := transferCounts[command.character :=
        if command.rosterSide == Right then prevCount + command.totalNumber else prevCount - command.totalNumber];
    }

    /** The `AfterReset` handler. */
    method AfterReset()
      modifies this
      ensures transferCounts == if manager != null then map[] else old(transferCounts)
    {
      if manager == null {
        return;
      }
      transferCounts := map[];
    }

    /** The done handler: every character's net count, in the dictionary's
        unspecified enumeration order (returned as `order`), becomes calls
        on the registry against the one shared roster copy. */
    method Done(leftParty: Wrappers.Option<string>) returns (calls: seq<Call>, ghost order: seq<string>, ghost states: seq<Snapshot>)
      modifies manager, rosterCopy
      ensures manager == null ==> calls == [] && order == [] && unchanged(rosterCopy)
      ensures manager != null ==> Chain(calls, states) && states[0] == old(Now()) && states[|states| - 1] == Now()
      ensures manager != null ==>
        && |order| == |transferCounts| && (forall t :: t in order <==> t in transferCounts)
        && (forall i, j :: 0 <= i < j < |order| ==> order[i] != order[j])
        && calls == AllCalls(order, transferCounts, leftParty)
      ensures manager != null ==> forall t ::
        Engine.CountOf(rosterCopy.counts, t) == Engine.CountOf(old(rosterCopy.counts), t) - Removals(Engine.CountOf(transferCounts, t))
      ensures manager != null ==> TroopNames.Kept(TroopNames.Total(old(manager.troopNameMapping), old(manager.awayFromPartyTroops), old(manager.troopGraveyard)),
        old(manager.troopGraveyard), TroopNames.Tidy(old(manager.awayFromPartyTroops)),
        manager.troopNameMapping, manager.awayFromPartyTroops, manager.troopGraveyard)
    {
      calls, order, states := [], [], [];
      if manager == null {
        return;
      }
      ghost var r0 := rosterCopy.counts;
      ghost var g0 := manager.troopGraveyard;
      ghost var a0 := TroopNames.Total(manager.troopNameMapping, manager.awayFromPartyTroops, g0);
      calls, order, states := DispatchAll(transferCounts, leftParty, r0, a0, g0, TroopNames.Tidy(manager.awayFromPartyTroops));
      DoneFinish(transferCounts, leftParty, r0, transferCounts.Keys, order, calls, rosterCopy.counts);
    }

    /** The outer loop of the done handler, over the characters of `counts`. */
    method DispatchAll(counts: map<string, int>, leftParty: Wrappers.Option<string>, ghost r0: map<string, int>,
                       ghost a0: multiset<Models.CustomTroopInfo>, ghost g0: seq<Models.DeadTroopInfo>, ghost tidy0: bool)
      returns (calls: seq<Call>, ghost order: seq<string>, ghost states: seq<Snapshot>)
      requires manager != null
      requires rosterCopy.counts == r0
      requires TroopNames.Kept(a0, g0, tidy0, manager.troopNameMapping, manager.awayFromPartyTroops, manager.troopGraveyard)
      modifies manager, rosterCopy
      ensures DoneProgress(counts, leftParty, r0, counts.Keys, order, calls, rosterCopy.counts)
      ensures TroopNames.Kept(a0, g0, tidy0, manager.troopNameMapping, manager.awayFromPartyTroops, manager.troopGraveyard)
      ensures Chain(calls, states) && states[0] == old(Now()) && states[|states| - 1] == Now()
    {
      ghost var s0 := Now();
      calls, order, states := [], [], [s0];
      var pending := counts.Keys;
      DoneStart(counts, leftParty, r0);
      ChainStart(s0);
      assert counts.Keys - pending == {};
      while pending != {}
        invariant pending <= counts.Keys
        invariant DoneProgress(counts, leftParty, r0, counts.Keys - pending, order, calls, rosterCopy.counts)
        invariant TroopNames.Kept(a0, g0, tidy0, manager.troopNameMapping, manager.awayFromPartyTroops, manager.troopGraveyard)
        invariant Chain(calls, states) && states[0] == s0 && states[|states| - 1] == Now()
        decreases |pending|
      {
        var troopType :| troopType in pending;
        calls, order, pending, states := DispatchStep(counts, leftParty, r0, order, calls, a0, g0, tidy0, troopType, pending, states);
      }
      assert counts.Keys - pending == counts.Keys;
    }

    /** One iteration of the done handler's outer loop: the calls for one
        more character keep the outer loop's bookkeeping. */
    method DispatchStep(counts: map<string, int>, leftParty: Wrappers.Option<string>, ghost r0: map<string, int>,
                        ghost order: seq<string>, calls: seq<Call>,
                        ghost a0: multiset<Models.CustomTroopInfo>, ghost g0: seq<Models.DeadTroopInfo>, ghost tidy0: bool,
                        troopType: string, pending: set<string>, ghost states: seq<Snapshot>)
      returns (calls': seq<Call>, ghost order': seq<string>, pending': set<string>, ghost states': seq<Snapshot>)
      requires manager != null
      requires troopType in pending && pending <= counts.Keys
      requires DoneProgress(counts, leftParty, r0, counts.Keys - pending, order, calls, rosterCopy.counts)
      requires TroopNames.Kept(a0, g0, tidy0, manager.troopNameMapping, manager.awayFromPartyTroops, manager.troopGraveyard)
      requires Chain(calls, states) && states[|states| - 1] == Now()
      modifies manager, rosterCopy
      ensures pending' <= counts.Keys && |pending'| < |pending|
      ensures DoneProgress(counts, leftParty, r0, counts.Keys - pending', order', calls', rosterCopy.counts)
      ensures TroopNames.Kept(a0, g0, tidy0, manager.troopNameMapping, manager.awayFromPartyTroops, manager.troopGraveyard)
      ensures Chain(calls', states') && states'[0] == states[0] && states'[|states'| - 1] == Now()
    {
      ghost var r := rosterCopy.counts;
      ghost var m1, a1, g1 := manager.troopNameMapping, manager.awayFromPartyTroops, manager.troopGraveyard;
      ghost var moreStates;
      var more;
      more, moreStates := DispatchType(troopType, counts[troopType], leftParty);
      ChainAppend(calls, states, more, moreStates);
      states' := states + moreStates[1..];
      TroopNames.KeptTrans(a0, g0, tidy0, m1, a1, g1,
                           manager.troopNameMapping, manager.awayFromPartyTroops, manager.troopGraveyard);
      ghost var visited := counts.Keys - pending;
      calls', order', pending' := calls + more, order + [troopType], pending - {troopType};
      assert counts.Keys - pending' == visited + {troopType};
      DoneStep(counts, leftParty, r0, visited, order, calls, r, troopType, counts.Keys - pending', more, rosterCopy.counts);
    }

    /** The inner loop of the done handler, for one character. */
    method DispatchType(troopType: string, count: int, leftParty: Wrappers.Option<string>)
      returns (calls: seq<Call>, ghost states: seq<Snapshot>)
      requires manager != null
      modifies manager, rosterCopy
      ensures calls == CallsFor(troopType, count, leftParty)
      ensures Chain(calls, states) && states[0] == old(Now()) && states[|states| - 1] == Now()
      ensures Engine.CountOf(rosterCopy.counts, troopType) == Engine.CountOf(old(rosterCopy.counts), troopType) - Removals(count)
      ensures forall t :: t != troopType ==> Engine.CountOf(rosterCopy.counts, t) == Engine.CountOf(old(rosterCopy.counts), t)
      ensures TroopNames.Kept(TroopNames.Total(old(manager.troopNameMapping), old(manager.awayFromPartyTroops), old(manager.troopGraveyard)),
        old(manager.troopGraveyard), TroopNames.Tidy(old(manager.awayFromPartyTroops)),
        manager.troopNameMapping, manager.awayFromPartyTroops, manager.troopGraveyard)
    {
      ghost var rc0 := rosterCopy.counts;
      ghost var c0 := Engine.CountOf(rc0, troopType);
      ghost var g0 := manager.troopGraveyard;
      ghost var a0, tidy0 := TroopNames.Total(manager.troopNameMapping, manager.awayFromPartyTroops, g0), TroopNames.Tidy(manager.awayFromPartyTroops);
      var n := if count >= 0 then count else -count;
      var step := StepCall(troopType, count, leftParty);
      ghost var s0 := Now();
      calls, states := [], [s0];
      ChainStart(s0);
      var i := 0;
      while i < n
        invariant 0 <= i <= n
        invariant calls == if step.None? then [] else Repeat(step.value, i)
        invariant Engine.CountOf(rosterCopy.counts, troopType) == c0 - (if count > 0 then i else 0)
        invariant forall t :: t != troopType ==> Engine.CountOf(rosterCopy.counts, t) == Engine.CountOf(rc0, t)
        invariant TroopNames.Kept(a0, g0, tidy0, manager.troopNameMapping, manager.awayFromPartyTroops, manager.troopGraveyard)
        invariant Chain(calls, states) && states[0] == s0 && states[|states| - 1] == Now()
      {
        calls, i, states := DispatchTypeStep(troopType, count, leftParty, step, rc0, c0, a0, g0, tidy0, calls, i, states);
      }
    }

    /** One iteration of the done handler's inner loop, with the inner
        loop's bookkeeping. */
    method DispatchTypeStep(troopType: string, count: int, leftParty: Wrappers.Option<string>, step: Wrappers.Option<Call>,
                            ghost rc0: map<string, int>, ghost c0: int,
                            ghost a0: multiset<Models.CustomTroopInfo>, ghost g0: seq<Models.DeadTroopInfo>, ghost tidy0: bool,
                            calls: seq<Call>, i: nat, ghost states: seq<Snapshot>)
      returns (calls': seq<Call>, i': nat, ghost states': seq<Snapshot>)
      requires manager != null && step == StepCall(troopType, count, leftParty)
      requires calls == if step.None? then [] else Repeat(step.value, i)
      requires Engine.CountOf(rosterCopy.counts, troopType) == c0 - (if count > 0 then i else 0)
      requires forall t :: t != troopType ==> Engine.CountOf(rosterCopy.counts, t) == Engine.CountOf(rc0, t)
      requires TroopNames.Kept(a0, g0, tidy0, manager.troopNameMapping, manager.awayFromPartyTroops, manager.troopGraveyard)
      requires Chain(calls, states) && states[|states| - 1] == Now()
      modifies manager, rosterCopy
      ensures i' == i + 1
      ensures calls' == if step.None? then [] else Repeat(step.value, i')
      ensures Engine.CountOf(rosterCopy.counts, troopType) == c0 - (if count > 0 then i' else 0)
      ensures forall t :: t != troopType ==> Engine.CountOf(rosterCopy.counts, t) == Engine.CountOf(rc0, t)
      ensures TroopNames.Kept(a0, g0, tidy0, manager.troopNameMapping, manager.awayFromPartyTroops, manager.troopGraveyard)
      ensures Chain(calls', states') && states'[0] == states[0] && states'[|states'| - 1] == Now()
    {
      ghost var m1, a1, g1 := manager.troopNameMapping, manager.awayFromPartyTroops, manager.troopGraveyard;
      var call := DispatchOnce(troopType, count, leftParty);
      TroopNames.KeptTrans(a0, g0, tidy0, m1, a1, g1,
                           manager.troopNameMapping, manager.awayFromPartyTroops, manager.troopGraveyard);
      calls', states' := calls, states;
      if call.Some? {
        assert Repeat(call.value, i + 1) == Repeat(call.value, i) + [call.value];
        ChainSnoc(calls, states, call.value, Now());
        calls', states' := calls + [call.value], states + [Now()];
      }
      i' := i + 1;
    }

    /** One iteration of the done handler's inner loop. */
    method DispatchOnce(troopType: string, count: int, leftParty: Wrappers.Option<string>) returns (call: Wrappers.Option<Call>)
      requires manager != null
      modifies manager, rosterCopy
      ensures call == StepCall(troopType, count, leftParty)
      ensures call.Some? ==> Effect(call.value, old(Now()), Now())
      ensures call.None? ==> Now() == old(Now())
      ensures Engine.CountOf(rosterCopy.counts, troopType) ==
        Engine.CountOf(old(rosterCopy.counts), troopType) - (if count > 0 then 1 else 0)
      ensures forall t :: t != troopType ==> Engine.CountOf(rosterCopy.counts, t) == Engine.CountOf(old(rosterCopy.counts), t)
      ensures TroopNames.Kept(TroopNames.Total(old(manager.troopNameMapping), old(manager.awayFromPartyTroops), old(manager.troopGraveyard)),
        old(manager.troopGraveyard), TroopNames.Tidy(old(manager.awayFromPartyTroops)),
        manager.troopNameMapping, manager.awayFromPartyTroops, manager.troopGraveyard)
    {
      if leftParty.None? {
        if count > 0 {
          AbandonOne(troopType);
          call := Wrappers.Some(Abandon(troopType));
        } else {
          call := Wrappers.None;
        }
      } else if count > 0 {
        LeaveOne(troopType, leftParty.value);
        call := Wrappers.Some(Leave(troopType, leftParty.value));
      } else {
        ReturnOne(troopType, leftParty.value);
        call := Wrappers.Some(Return(troopType, leftParty.value));
      }
    }

    /** `TroopAbandoned` against the roster copy. */
    method AbandonOne(troopType: string)
      requires manager != null
      modifies manager, rosterCopy
      ensures Effect(Abandon(troopType), old(Now()), Now())
      ensures Engine.CountOf(rosterCopy.counts, troopType) == Engine.CountOf(old(rosterCopy.counts), troopType) - 1
      ensures forall t :: t != troopType ==> Engine.CountOf(rosterCopy.counts, t) == Engine.CountOf(old(rosterCopy.counts), t)
      ensures TroopNames.Kept(TroopNames.Total(old(manager.troopNameMapping), old(manager.awayFromPartyTroops), old(manager.troopGraveyard)),
        old(manager.troopGraveyard), TroopNames.Tidy(old(manager.awayFromPartyTroops)),
        manager.troopNameMapping, manager.awayFromPartyTroops, manager.troopGraveyard)
    {
      ghost var s := Now();
      var abandoned, index := manager.TroopAbandoned(troopType, rosterCopy);
      AbandonEffect(troopType, s, Now(), abandoned, index);
    }

    /** `TroopLeavesParty` against the roster copy. */
    method LeaveOne(troopType: string, partyName: string)
      requires manager != null
      modifies manager, rosterCopy
      ensures Effect(Leave(troopType, partyName), old(Now()), Now())
      ensures Engine.CountOf(rosterCopy.counts, troopType) == Engine.CountOf(old(rosterCopy.counts), troopType) - 1
      ensures forall t :: t != troopType ==> Engine.CountOf(rosterCopy.counts, t) == Engine.CountOf(old(rosterCopy.counts), t)
      ensures TroopNames.Kept(TroopNames.Total(old(manager.troopNameMapping), old(manager.awayFromPartyTroops), old(manager.troopGraveyard)),
        old(manager.troopGraveyard), TroopNames.Tidy(old(manager.awayFromPartyTroops)),
        manager.troopNameMapping, manager.awayFromPartyTroops, manager.troopGraveyard)
    {
      ghost var s := Now();
      var left, index := manager.TroopLeavesParty(troopType, rosterCopy, partyName);
      LeaveEffect(troopType, partyName, s, Now(), left, index);
    }

    /** `TroopReturnsToParty`. */
    method ReturnOne(troopType: string, partyName: string)
      requires manager != null
      modifies manager
      ensures Effect(Return(troopType, partyName), old(Now()), Now())
      ensures TroopNames.Kept(TroopNames.Total(old(manager.troopNameMapping), old(manager.awayFromPartyTroops), old(manager.troopGraveyard)),
        old(manager.troopGraveyard), TroopNames.Tidy(old(manager.awayFromPartyTroops)),
        manager.troopNameMapping, manager.awayFromPartyTroops, manager.troopGraveyard)
    {
      ghost var s := Now();
      var _ := manager.TroopReturnsToParty(troopType, partyName);
      ReturnEffect(troopType, partyName, s, Now());
    }
  }
}
