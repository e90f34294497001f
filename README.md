# CustomTroopNames: a Dafny model of the named-troop bookkeeping

CustomTroopNames is a Mount & Blade II: Bannerlord mod that lets the player name
recruited soldiers. It follows each named soldier from recruitment onwards: through
upgrades, battles, desertion, dismissal, and being left with (and taken back from)
other parties. It records the dead in a graveyard and prints battle highlights. This
project models that bookkeeping and proves what it keeps true.

The model has one module per part of the mod:

- `Models` (Models.cs). `CustomTroopInfo` is a class with a constant name and a
  mutable kill count. Because it is a class, the same object can be shared by the
  registry's lists, a battle's copy of them and the graveyard. `DeadTroopInfo` is a
  value with three read-only fields. `Buried` is the bag of troops a run of
  graveyard entries holds.
- `TroopNames` (CustomTroopNameManager.cs). It holds the class
  `CustomTroopNameManager` with its three structures:
  - the mapping from troop type to its ordered list of named troops;
  - the append-only graveyard;
  - the map from party to troop type to the troops left with that party.

  Every game event is a method that updates these fields in place. Beside the
  class are the pure descriptions of those updates, and the accounting lemmas.
  `Flatten`, `FlattenAway` and `Buried` give the bags of troops in the mapping,
  the away lists and the graveyard. The lemmas show that every event moves troops
  between these bags without losing any. `CheckValid` is a loop over the types,
  with an inner loop that pops troops off the front of a list. It is proved to
  reach a mapping where no list is longer than its type's head-count.
- `CustomTroopsMission` (CustomTroopsMissionBehavior.cs). A battle's copy of the
  mapping hands each eligible spawned agent the head of its type's list. Over a
  whole battle the lists are handed out in order, each troop at most once. Kills
  are counted, and deaths are reported to the registry.
- `Highlights` (HighlightsMissionBehavior.cs). This covers:
  - the per-name tally objects and how each removal changes them;
  - the message tiers;
  - the sort by kills and filter that produce the scoreboard lines.
- `PartyScreen` (Views/PartyScreenOverride.cs). The screen keeps a net-transfer
  counter per character. When the player confirms, a loop turns each count into
  abandon, leave or return calls on the registry. All of those calls work against
  one shared roster copy.
- `Engine` holds the few engine types the mod touches:
  - a troop type is its name;
  - a roster is a head-count map;
  - an agent is its type, three flags and its optional troop record.
- `Text` holds the decimal rendering of an `int` used in messages, with its
  inverse.
- `Wrappers` holds `Option` and a lemma about a second write to a map key.

Dictionary enumeration order is unspecified in .NET. Each loop over a dictionary
picks its next key nondeterministically and returns the visited order as a ghost
out-parameter; the contracts hold for every order. The random index of
`RemoveRandomTroopIfNecessary` is also a nondeterministic choice, and the method
returns the index it chose.

## Model

| member | source | states |
|---|---|---|
| Models.CustomTroopInfo.constructor | CustomTroopNames/Models.cs:21-29 | a new troop has the given name and no kills; the name is a constant, so only the kill count can change afterwards |
| Models.MakeDeadTroopInfo | CustomTroopNames/Models.cs:6-19 | a graveyard entry stores the troop object itself (not a copy), its type and the cause, exactly as given |
| Models.BuriedAppend | CustomTroopNames/CustomTroopNameManager.cs:14-15 | the troops of two graveyard runs put together are the union of the troops of each |
| TroopNames.CustomTroopNameManager.constructor | CustomTroopNames/CustomTroopNameManager.cs:11-20 | a new registry has an empty mapping, an empty graveyard and no away troops |
| TroopNames.Appended | CustomTroopNames/CustomTroopNameManager.cs:35-43 | the troop goes at the end of its type's list, which is created if the type is absent; every other type's list is unchanged |
| TroopNames.FlattenAppended | CustomTroopNames/CustomTroopNameManager.cs:35-43 | adding a troop adds exactly that troop to the bag of named troops |
| TroopNames.CustomTroopNameManager.AddTroop | CustomTroopNames/CustomTroopNameManager.cs:35-43 | the mapping becomes `Appended` of the old one, the graveyard and away lists are unchanged, and the live and all-time troop bags each gain exactly the new troop |
| TroopNames.CustomTroopNameManager.NameRecruit | CustomTroopNames/CustomTroopNameManager.cs:26-28 | the naming callback creates a fresh troop with the given name and no kills, and appends it to its type |
| TroopNames.RemoveFirstOfHead | CustomTroopNames/CustomTroopNameManager.cs:51-52 | removing the head of a list by value removes it by position, so the rest of the list keeps its order |
| TroopNames.CustomTroopNameManager.TroopUpgraded | CustomTroopNames/CustomTroopNameManager.cs:45-58 | nothing changes when the old type has no named troops; otherwise its first troop leaves the old list and goes to the end of the new type's list, returned as the promoted troop; the live troop bag is unchanged |
| TroopNames.RemoveFirst | CustomTroopNames/CustomTroopNameManager.cs:77 | `List.Remove` drops the first occurrence of the troop (the list loses exactly that one element and keeps the order of the rest), or changes nothing when the troop is absent |
| TroopNames.CustomTroopNameManager.RemoveRandomTroopIfNecessary | CustomTroopNames/CustomTroopNameManager.cs:60-73 | the roster count of the type always drops by exactly one; one named troop, at the chosen index in range, is removed and returned exactly when the type has named troops and the decremented count is below their number; otherwise nothing is removed |
| TroopNames.RandomRemovalFlatten | CustomTroopNames/CustomTroopNameManager.cs:60-73 | the removed troop, if any, is the only one that leaves the bag of named troops |
| TroopNames.FlattenRemoveAt | CustomTroopNames/CustomTroopNameManager.cs:69-71 | removing the element at an index from one list removes exactly that troop from the bag of named troops |
| TroopNames.WithoutDead | CustomTroopNames/CustomTroopNameManager.cs:75-80 | the dead troop leaves its type's list if it is in it; the set of types and every other list are unchanged |
| TroopNames.DeathAccounted | CustomTroopNames/CustomTroopNameManager.cs:75-82 | after a death, the troops recorded anywhere are those recorded before, plus the dead troop if it was not in its type's list: a listed troop moves from the list to the graveyard |
| TroopNames.CustomTroopNameManager.TroopDied | CustomTroopNames/CustomTroopNameManager.cs:75-87 | the troop leaves its list if present, exactly one graveyard entry with the given type and cause is appended, the away lists are unchanged, and the all-time bag grows only by an unlisted dead troop |
| TroopNames.CustomTroopNameManager.AnonymousTroopDied | CustomTroopNames/CustomTroopNameManager.cs:89-94 | nothing changes when the type has no named troops; otherwise its first troop leaves the list and is buried with the given cause; no troop is gained or lost |
| TroopNames.CustomTroopNameManager.Bury | CustomTroopNames/CustomTroopNameManager.cs:97-100 | the removal callback appends one graveyard entry for the removed troop, or nothing when none was removed |
| TroopNames.CustomTroopNameManager.TroopDeserted | CustomTroopNames/CustomTroopNameManager.cs:96-102 | the random removal as above, and then a removed troop is buried as "deserted"; nothing is buried when none was removed; no troop is gained or lost |
| TroopNames.CustomTroopNameManager.TroopAbandoned | CustomTroopNames/CustomTroopNameManager.cs:104-110 | the random removal as above, and then a removed troop is buried as "went their separate ways"; no troop is gained or lost |
| TroopNames.LeftWith | CustomTroopNames/CustomTroopNameManager.cs:114-133 | the troop goes at the end of `away[party][type]`; the party's map and the type's list are created as needed, and every other party and type is unchanged |
| TroopNames.LeftWithFlatten | CustomTroopNames/CustomTroopNameManager.cs:114-133 | leaving a troop with a party adds exactly that troop to the away bag |
| TroopNames.CustomTroopNameManager.LeaveWith | CustomTroopNames/CustomTroopNameManager.cs:114-133 | the callback's three branches produce `LeftWith` of the old away map; a tidy away map stays tidy |
| TroopNames.CustomTroopNameManager.TroopLeavesParty | CustomTroopNames/CustomTroopNameManager.cs:113-134 | the random removal as above, and then a removed troop is filed under the party; the graveyard is unchanged and the live troop bag is unchanged |
| TroopNames.TakenBack | CustomTroopNames/CustomTroopNameManager.cs:136-153 | the first away troop of the type is taken off; an emptied type entry is deleted, and the party entry with it once the party has no types left; other parties and types are unchanged |
| TroopNames.TakenBackTidy | CustomTroopNames/CustomTroopNameManager.cs:145-153 | the clean-up keeps the away map free of empty lists and empty party maps |
| TroopNames.TakenBackFlatten | CustomTroopNames/CustomTroopNameManager.cs:136-153 | taking a troop back removes exactly that troop from the away bag |
| TroopNames.ReturnAccounted | CustomTroopNames/CustomTroopNameManager.cs:136-157 | a returning troop moves from the away bag to the mapping's bag, so the live troops are the same |
| TroopNames.CustomTroopNameManager.TroopReturnsToParty | CustomTroopNames/CustomTroopNameManager.cs:136-157 | a missing party, type or troop changes nothing; otherwise the first away troop of the type is returned and appended to the mapping, and the away map becomes `TakenBack` of the old one; the graveyard is unchanged, the live bag is unchanged, and tidiness is kept |
| TroopNames.CustomTroopNameManager.GetTroopsToAssign | CustomTroopNames/CustomTroopNameManager.cs:160-163 | the copy has the same types and equal lists, so it holds the same troop objects; being a value, consuming it cannot change the registry |
| TroopNames.Excess | CustomTroopNames/CustomTroopNameManager.cs:181-186 | the number popped is at most the list length, leaves no more than the head-count, and leaves exactly the head-count when anything is popped |
| TroopNames.GravesBuried | CustomTroopNames/CustomTroopNameManager.cs:184 | the graveyard entries for a run of popped troops hold exactly those troops |
| TroopNames.CustomTroopNameManager.TrimFront | CustomTroopNames/CustomTroopNameManager.cs:181-186 | the inner loop pops the excess troops off the front of the type's list and appends their graveyard entries, in removal order, with cause "killed by programming error" |
| TroopNames.ReconciledStep | CustomTroopNames/CustomTroopNameManager.cs:168-187 | trimming one more type gives the mapping trimmed on the visited types plus that one |
| TroopNames.ReconcileStep | CustomTroopNames/CustomTroopNameManager.cs:168-187 | one iteration of the outer loop keeps its bookkeeping: visited types trimmed, the rest untouched, and the graveyard extended by the popped troops of each visited type in visiting order |
| TroopNames.ReconcileConserves | CustomTroopNames/CustomTroopNameManager.cs:166-188 | trimming any set of types, in any order without repeats, loses no troop: the trimmed mapping plus the graveyard hold the same troops as before |
| TroopNames.ReconcileDone | CustomTroopNames/CustomTroopNameManager.cs:166-188 | once every type is visited, each list is its old tail of at most the head-count, and the graveyard grew by exactly the popped troops |
| TroopNames.CustomTroopNameManager.TrimStep | CustomTroopNames/CustomTroopNameManager.cs:168-187 | one iteration of the outer loop trims one more type to its head-count, looked up by name in the roster's counts (0 when absent), and keeps `ReconcileProgress` with that type added to the visited ones; the away lists are unchanged |
| TroopNames.CustomTroopNameManager.TrimAll | CustomTroopNames/CustomTroopNameManager.cs:168-187 | the outer loop visits each type once, in an arbitrary order, and reaches the end state of `ReconcileProgress` |
| TroopNames.CustomTroopNameManager.CheckValid | CustomTroopNames/CustomTroopNameManager.cs:166-188 | afterwards every type's list is no longer than the type's head-count (0 for a type absent from the roster); the excess came off the front; the graveyard grew by exactly the popped troops in removal order; the away lists are unchanged; no troop is gained or lost |
| TroopNames.KillSuffix | CustomTroopNames/CustomTroopNameManager.cs:195-197 | the suffix is empty exactly for zero kills, and is otherwise parenthesised |
| TroopNames.KillSuffixInjective | CustomTroopNames/CustomTroopNameManager.cs:195-197 | different kill counts give different suffixes |
| Text.ParseIntToString | CustomTroopNames/HighlightsMissionBehavior.cs:50 | the decimal rendering of an `int` in an interpolated string reads back as the same number |
| Text.IntToStringInjective | CustomTroopNames/CustomTroopNameManager.cs:197 | different numbers are rendered differently |
| Highlights.HighlightData.constructor | CustomTroopNames/HighlightsMissionBehavior.cs:9-12 | a fresh entry has no kills and has not died |
| Highlights.HighlightsMissionBehavior.constructor | CustomTroopNames/HighlightsMissionBehavior.cs:15-16 | a behaviour starts with no stats |
| Highlights.HighlightsMissionBehavior.GetOrInsertDefault | CustomTroopNames/HighlightsMissionBehavior.cs:18-26 | an existing entry is returned and nothing changes; otherwise exactly one fresh zero entry is inserted under the name and returned |
| Highlights.Bumped | CustomTroopNames/HighlightsMissionBehavior.cs:35 | the name's kills go up by exactly one, its death flag is kept, and nothing else changes |
| Highlights.MarkedDead | CustomTroopNames/HighlightsMissionBehavior.cs:43 | the name is marked dead, its kills are kept, and nothing else changes |
| Highlights.HighlightsMissionBehavior.IncrementKills | CustomTroopNames/HighlightsMissionBehavior.cs:35 | `Kills += 1` on the shared object changes only that name's tally, because each name has its own object |
| Highlights.HighlightsMissionBehavior.SetDied | CustomTroopNames/HighlightsMissionBehavior.cs:43 | `Died = true` on the shared object changes only that name's tally |
| Highlights.HighlightsMissionBehavior.BumpKills | CustomTroopNames/HighlightsMissionBehavior.cs:35 | the tallies become `Bumped` of the old ones |
| Highlights.HighlightsMissionBehavior.MarkDied | CustomTroopNames/HighlightsMissionBehavior.cs:43 | the tallies become `MarkedDead` of the old ones |
| Highlights.Removal | CustomTroopNames/HighlightsMissionBehavior.cs:28-45 | a removal without an affector changes nothing, even a named death; a named affector's kills go up by exactly one whatever the state; a name is marked dead only when the state is Killed and the affected agent carries that name |
| Highlights.HighlightsMissionBehavior.OnAgentRemoved | CustomTroopNames/HighlightsMissionBehavior.cs:28-45 | the tallies become `Removal` of the old ones |
| Highlights.ReplayTally | CustomTroopNames/HighlightsMissionBehavior.cs:28-45 | over a battle, a name's kill tally is the number of removals by agents with that name, and its death flag is set exactly when one of them was killed with an affector present; same-named troops share one tally |
| Highlights.ReplayMonotone | CustomTroopNames/HighlightsMissionBehavior.cs:28-45 | tallies only grow: kills never drop, a death is never undone, and no name disappears |
| Highlights.MessageForTroopAsWritten | CustomTroopNames/HighlightsMissionBehavior.cs:47-60 | the message tiers as written; there is a line exactly for a death or for 3 or more kills |
| Highlights.DollarSignFinding | CustomTroopNames/HighlightsMissionBehavior.cs:51 | for every name, the written line for a death without kills starts with `$` and differs from the intended line |
| Highlights.DollarSignExample | CustomTroopNames/HighlightsMissionBehavior.cs:51 | for "Bob", dead with no kills, the written line is "$Bob died." and the intended one is "Bob died." |
| Highlights.MessageForTroop | CustomTroopNames/HighlightsMissionBehavior.cs:47-60 | the intended tiers: there is a line exactly for a death or for 3 or more kills; each line starts with the name, or with "Killing spree! " and the name for 5 or more kills alive; on every other tier it agrees with the written code |
| Highlights.MessageReportsKills | CustomTroopNames/HighlightsMissionBehavior.cs:49-58 | every line that reports a kill count holds that count in decimal between its fixed parts |
| Highlights.Insert | CustomTroopNames/HighlightsMissionBehavior.cs:68 | inserting into a list sorted by kills keeps it sorted and adds exactly the new entry |
| Highlights.SortByKills | CustomTroopNames/HighlightsMissionBehavior.cs:68 | the result is in non-decreasing kill order and is a permutation of the input |
| Highlights.NoteworthyEntries | CustomTroopNames/HighlightsMissionBehavior.cs:69 | every kept entry earns a line, and an entry is kept exactly when it earns one |
| Highlights.NoteworthyCounts | CustomTroopNames/HighlightsMissionBehavior.cs:69 | the filter keeps each entry that earns a line as many times as it occurs, and drops every other entry |
| Highlights.NoteworthyAppend | CustomTroopNames/HighlightsMissionBehavior.cs:69 | the filter keeps entries in the order they come: filtering two lists joined end to end gives the two filtered lists joined the same way |
| Highlights.NoteworthySorted | CustomTroopNames/HighlightsMissionBehavior.cs:68-69 | filtering keeps the kill order |
| Highlights.Results | CustomTroopNames/HighlightsMissionBehavior.cs:69 | line k is the message as written for the k-th noteworthy entry, so a troop that died without kills gets "$" before its name; null messages are skipped |
| Highlights.ResultsAgreeExceptDollar | CustomTroopNames/HighlightsMissionBehavior.cs:47-69 | a scoreboard line equals the intended message for its entry exactly when that troop did not die without a kill |
| Highlights.ResultsOrdered | CustomTroopNames/HighlightsMissionBehavior.cs:67-72 | the lines come in non-decreasing kill order, one line for each occurrence of an entry that earns one, and no other lines |
| Highlights.EntriesOf | CustomTroopNames/HighlightsMissionBehavior.cs:67 | the stats listed in a given key order, one entry per key |
| Highlights.HighlightsMissionBehavior.ToList | CustomTroopNames/HighlightsMissionBehavior.cs:67 | the loop lists every name's current tally exactly once, in some order |
| Highlights.MessagesOf | CustomTroopNames/HighlightsMissionBehavior.cs:69-72 | the message loop over the written messages produces `Results` of the sorted list |
| Highlights.HighlightsMissionBehavior.ShowBattleResults | CustomTroopNames/HighlightsMissionBehavior.cs:62-74 | no lines when there is no scoreboard; otherwise the lines are `Results` (the messages as written, stray `$` included) of the sorted listing of the current stats, for the order in which the dictionary was enumerated |
| CustomTroopsMission.Assign | CustomTroopNames/CustomTroopsMissionBehavior.cs:23-41 | an ineligible agent (non-human, not on the player's team, or player-controlled), or a type with no troops left, gets nothing and changes nothing; otherwise the agent gets the head of its type's list and the list loses exactly that troop |
| CustomTroopsMission.HandedInOrder | CustomTroopNames/CustomTroopsMissionBehavior.cs:34-41 | over any sequence of spawned agents, each type's assigned troops followed by its remaining troops are its list at the start of the battle, so troops are handed out in list order, each at most once |
| CustomTroopsMission.CustomTroopsMissionBehavior.constructor | CustomTroopNames/CustomTroopsMissionBehavior.cs:11 | a behaviour starts with no dictionary of troops to assign: it is null until `EarlyStart` |
| CustomTroopsMission.CustomTroopsMissionBehavior.EarlyStart | CustomTroopNames/CustomTroopsMissionBehavior.cs:13-21 | the behaviour takes the registry's copy when there is a registry, and an empty dictionary otherwise |
| CustomTroopsMission.CustomTroopsMissionBehavior.OnAgentBuild | CustomTroopNames/CustomTroopsMissionBehavior.cs:23-42 | before `EarlyStart` an eligible agent makes the handler throw on the null dictionary and nothing is handed out; afterwards one spawn does what `Assign` says, and keeps the invariant that what was handed out followed by what remains is the list at the start |
| CustomTroopsMission.CustomTroopsMissionBehavior.OnAgentRemoved | CustomTroopNames/CustomTroopsMissionBehavior.cs:44-81 | a named affector's troop gains exactly one kill whatever the state; the handler then throws exactly when there is no affected agent, whose name the kill message reads; the registry is told of a death exactly when the state is Killed, the affected agent is named and there is a registry, and then it records what `TroopDied` says; otherwise the registry is unchanged |
| PartyScreen.UpdatedCounts | CustomTroopNames/Views/PartyScreenOverride.cs:68-82 | prisoner commands and codes other than transfer and recruit change nothing; otherwise the character's count moves by plus the number for the right side and minus it for the left, from 0 when absent; other characters are unchanged |
| PartyScreen.PartyScreenOverride.Update | CustomTroopNames/Views/PartyScreenOverride.cs:68-82 | the handler's counts become `UpdatedCounts` of the old ones |
| PartyScreen.ReplayNet | CustomTroopNames/Views/PartyScreenOverride.cs:68-86 | after a reset, a character's count is the net of the counted transfers for it, whatever was done to other characters |
| PartyScreen.PartyScreenOverride.AfterReset | CustomTroopNames/Views/PartyScreenOverride.cs:84-86 | the reset empties every count |
| PartyScreen.PartyScreenOverride.constructor | CustomTroopNames/Views/PartyScreenOverride.cs:29-37 | the screen keeps the registry (or none) and its own copy of the member roster, and starts with no counts |
| PartyScreen.Repeat | CustomTroopNames/Views/PartyScreenOverride.cs:41 | n iterations issue n copies of the same call |
| PartyScreen.CallsFor | CustomTroopNames/Views/PartyScreenOverride.cs:40-57 | with a left party a character gets exactly \|count\| calls: leaves for a positive count, returns for a negative one; without a left party a positive count gives that many abandons and a negative one gives none |
| PartyScreen.DoneStep | CustomTroopNames/Views/PartyScreenOverride.cs:40-58 | one more character keeps the outer loop's bookkeeping: the calls so far, and the roster copy lowered by the removals of the visited characters only |
| PartyScreen.DoneFinish | CustomTroopNames/Views/PartyScreenOverride.cs:39-59 | at the end every character's calls were issued once, in enumeration order, and the shared roster copy went down cumulatively by every positive count |
| PartyScreen.PartyScreenOverride.AbandonOne | CustomTroopNames/Views/PartyScreenOverride.cs:44 | `TroopAbandoned` against the roster copy has an abandon `Effect`: one head fewer, and when the names outnumber the heads the drawn troop leaves its list and is buried as having gone its separate way; the registry loses no troop |
| PartyScreen.PartyScreenOverride.LeaveOne | CustomTroopNames/Views/PartyScreenOverride.cs:51 | `TroopLeavesParty` against the roster copy has a leave `Effect`: one head fewer, and the drawn troop, if any, is filed under the left party instead of buried; the registry loses no troop |
| PartyScreen.PartyScreenOverride.ReturnOne | CustomTroopNames/Views/PartyScreenOverride.cs:53 | `TroopReturnsToParty` has a return `Effect`: the first troop of the type left with the party moves to the end of the mapping's list, or nothing changes when none is left there; the roster copy and graveyard are unchanged |
| PartyScreen.PartyScreenOverride.DispatchOnce | CustomTroopNames/Views/PartyScreenOverride.cs:42-55 | one iteration issues the call `StepCall` names and the registry and roster copy change exactly as that call's `Effect` says; when no call is issued nothing changes; every troop stays accounted for |
| PartyScreen.PartyScreenOverride.DispatchTypeStep | CustomTroopNames/Views/PartyScreenOverride.cs:41-56 | one iteration of the inner loop extends the calls by the step's call and the run of registry states by the state it produced, keeping the roster bookkeeping |
| PartyScreen.PartyScreenOverride.DispatchType | CustomTroopNames/Views/PartyScreenOverride.cs:41-57 | the inner loop issues `CallsFor` the character's count and lowers only that character's roster count, by its removals; its run of registry states goes from the state before to the state after, each call taking one state to the next by its `Effect` |
| PartyScreen.PartyScreenOverride.DispatchStep | CustomTroopNames/Views/PartyScreenOverride.cs:40-57 | one iteration of the outer loop adds one character's calls and their run of states to those so far, keeping `DoneProgress` |
| PartyScreen.PartyScreenOverride.DispatchAll | CustomTroopNames/Views/PartyScreenOverride.cs:40-58 | the outer loop visits each character once, keeps the registry's troops accounted for, and links the calls, in the order issued, to a run of registry states from the first to the last by their `Effect`s |
| PartyScreen.PartyScreenOverride.Done | CustomTroopNames/Views/PartyScreenOverride.cs:39-59 | without a registry no call is issued and the roster copy is unchanged; otherwise the calls are `AllCalls` over the characters in enumeration order, each call takes the registry from one state of the returned run to the next as its `Effect` says, the shared roster copy drops by every positive count, the registry loses no troop, its graveyard only grows, and tidy away lists stay tidy |

## Left out

- Messages and printing (`InformationManager.DisplayMessage`, `ModColors`, `Debug.WriteLine`, and `PrintTroops`, `PrintGrave` and `PrintAway`) are not modelled. Only the kill-suffix rule of `PrintTroops` is kept. The scoreboard lines are returned rather than added to the view model.
- `RecruitTroopInquiryManager` is not modelled: it is asynchronous UI prompting. The naming callback it eventually calls is `NameRecruit`.
- `SyncData` and the save-system type definitions are not modelled: they depend on the host save system.
- CustomTroopNames.cs, BattleSimulationOverride.cs and TroopsView.cs are not part of this model. They are event wiring and UI. That includes the `PartyWipe` and `GetTroopViews` calls, whose targets the manager does not define.
- `RenameAgent` is not modelled: it relies on side effects of engine setters.
- `Rnd.Next` is a nondeterministic choice of an index in range, not a pseudo-random generator.
- Dictionary enumeration order is a nondeterministic choice. The visited order is a ghost out-parameter.
- Highlights.SortByKills: `List.Sort` is unstable, so the source leaves the order of equal-kill entries unspecified. The model fixes one order. What is proved is the source's promise: non-decreasing kills and a permutation.
- Engine.Roster.AddToCounts: the engine's own handling of a count going below zero is unknown, so it is a plain addition.
- TroopNames.CustomTroopNameManager.CheckValid requires non-negative head-counts. With a negative count the source pops the whole list and then indexes an empty list.
- CustomTroopsMission.CustomTroopsMissionBehavior.OnAgentRemoved: the source calls `TroopDied` with a troop type and a troop but no cause of death, while the manager's `TroopDied` takes three arguments. The cause is therefore a parameter.
- The display messages of `OnAgentRemoved` (killed, knocked out, did something to) are left out as text. Each of them reads the affected agent's name, so with a named affector and no affected agent the handler throws. That throw is modelled, as `threw`, and so is the one `OnAgentBuild` hits on the dictionary that is null before `EarlyStart`. What the game does with the exception is not modelled.
- PartyScreen: the left owner party is an `Option` holding the left party's name. Command codes other than transfer and recruit are one constructor, `OtherCode`. The registry is a constant of the screen, fixed when it opens. The done handler chaining onto earlier delegates (`AttachDoneHandler`) is not modelled.
- A troop type is identified with its display name. The source keys the roster and the party screen's transfer counts by the character object, and `CheckValid` takes the first roster character whose name matches. Two types sharing a display name are therefore merged in the model's roster and transfer counts, where the source keeps them apart.

## Findings

| source | as written | input that shows it | evidently intended | confidence | as-written member | corrected member |
|---|---|---|---|---|---|---|
| CustomTroopNames/HighlightsMissionBehavior.cs:51 | the line for a troop that died without kills is `$"${troopName} died."`, whose first `$` is a literal character | the troop "Bob", dead with 0 kills: the line is "$Bob died." | "Bob died.", like every other line, which starts with the name | not executed | Highlights.MessageForTroopAsWritten, with Highlights.DollarSignFinding, Highlights.DollarSignExample and Highlights.ResultsAgreeExceptDollar | Highlights.MessageForTroop |

The scoreboard (`Highlights.Results`, `Highlights.MessagesOf`, `Highlights.HighlightsMissionBehavior.ShowBattleResults`) is built on the messages as written, so it carries the stray `$`; `Highlights.ResultsAgreeExceptDollar` pins down the lines where it differs from the intended messages.
