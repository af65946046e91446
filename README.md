# ParallelSched in Dafny

ParallelSched assigns the sessions of working groups to numbered time slots of a
meeting. Several sessions may run in parallel, up to a number of tracks. Each group asks
for a number of its own sessions. Joint sessions bring several groups together. Hard
rules say which groups must never meet in parallel and which slots a group prefers or
cannot attend. Soft, prioritised conflicts are weighted so that earlier conflicts in a
group's list cost more. A constraint solver finds an assignment. When a previous agenda
is given, the scheduler runs the solver several times and keeps the solution that
differs least from the previous one.

This project models the core of `ParallelSched.py` and proves its properties. The
modules are:

- `SchedConfig` holds the inputs (`Config`) and a valuation of the decision variables
  (`Valuation`). Slots in a valuation count from 0.
- `SlotConversion` models `convert_values_to_0_based` on a small model of the dynamic
  values it inspects: integers, booleans (Python's `bool` is an `int`), lists and
  anything else.
- `Rules` states each rule of `schedule_sessions_once` as a predicate over a valuation.
  `Valid` is their conjunction. `Penalty` is the weighted count of prioritised overlaps
  that the source minimises.
- `CpModel` is the constraint language the source uses: integer domains, `!=` between
  variables and against constants, allowed assignments, and the per-slot indicator sum
  bounded by the track count. It also defines the minimised objective.
- `ModelBuilder` holds the loops of lines 75-175 as imperative methods that append
  constraints. `BuildModel` proves that the constraints it produces are satisfied
  exactly by the valid valuations, and that its objective equals `Penalty`.
- `AgendaAssembly` models `collect_solution` as imperative methods over an
  `Agenda = map<int, seq<string>>`. It proves that the result is `AgendaOf(c, v)`, a
  declarative description of the agenda, and then proves what that agenda contains.
- `ChangeDistance` models `calculate_changes`: Python's `str.strip`, `sorted`, and the
  loop counting labels absent from the previous slot. `CalculateChanges` is proved equal
  to `Changes`, and the properties of the change count are lemmas about `Changes`.
- `KeySums` gives sums over the keys of a dictionary, independent of iteration order.
- `Search` covers `schedule_sessions_once` and the selection loop of
  `schedule_sessions`. The solver is a parameter that returns either no solution or a
  valuation satisfying the model.
- `Scenarios` works out small configurations completely.

The following behaviours of the code are modelled as written:

- `not previous_agenda` (line 195, and line 27) and `not solution` (line 203) are true
  both for `None` and for an empty dictionary. `Falsy` captures this. An empty previous
  agenda therefore runs one iteration and counts 0 changes.
- `range(num_iterations)` with a negative count runs no iteration.
- With `num_sessions` 0 every agenda is `{}`, which `not solution` (line 203) skips, so no solution is kept even when the solver succeeds (`Search.ScheduleSessions`).
- A joint session of groups A and B, with one session each and two slots, forces A and
  B into the same slot, since the joint session must avoid both. With one track no
  valuation is valid (`Scenarios.JointPairOneTrack`); with two tracks one is
  (`Scenarios.JointPairTwoTracks`).
- Renaming one label in a slot adds exactly one change only when no other label of that
  slot strips to the same string, because the count looks up labels by membership
  (`ChangeDistance.ChangesExactlyOne` states the precise condition).

## Model

| member | source | states |
|---|---|---|
| SlotConversion.IntsOf | ParallelSched.py:60 | the integers kept from a list are at most as many as its items |
| SlotConversion.ConvertList | ParallelSched.py:60 | the converted list holds, in order, each integer item of the input minus one, and nothing for the other items |
| SlotConversion.ConvertValue | ParallelSched.py:56-62 | an integer (or bool) becomes itself minus one; a list becomes its integer items decremented; any other value is returned unchanged |
| SlotConversion.ConvertValuesTo0Based | ParallelSched.py:51-64 | the keys are unchanged, and every value is the converted original value |
| SlotConversion.Lift | ParallelSched.py:60 | a list of slot numbers as a Python list of integers, item by item |
| SlotConversion.LiftAll | ParallelSched.py:51-64 | a slot dictionary with the same keys, each value lifted to a Python list |
| SlotConversion.Decrement | ParallelSched.py:60 | same length, and x is in the result exactly when x + 1 is in the input |
| SlotConversion.ZeroBased | ParallelSched.py:72-73 | same keys; x is a 0-based slot of a key exactly when x + 1 was its 1-based slot |
| SlotConversion.IntsOfLift | ParallelSched.py:60 | a list made only of integers keeps all of them |
| SlotConversion.NonIntsDropped | ParallelSched.py:60 | a non-integer item contributes nothing to the converted list |
| SlotConversion.ConvertLiftedList | ParallelSched.py:59-60 | converting a list of integers decrements each of them |
| SlotConversion.DecrementAt | ParallelSched.py:60 | item j of the decremented list is item j of the input minus one |
| SlotConversion.ConvertSlotDictionary | ParallelSched.py:51-64 | converting a dictionary of integer lists gives the dictionary of decremented lists (the conversion of lines 72-73) |
| SchedConfig.WellFormed | ParallelSched.py:94-144 | the inputs the scheduler is modelled on: the group order lists each group once, and every group named by a joint session, a strict pair, a prioritised conflict, a preference or a forbidden slot is a key of `group_sessions`, so the dictionary lookups of lines 95-144 succeed |
| SchedConfig.Shaped | ParallelSched.py:76-89 | a valuation gives each group exactly `group_sessions[g]` own slots and each joint session one slot, the variables lines 78 and 89 declare |
| SchedConfig.Occurrences | ParallelSched.py:149-165 | the number of variables placed in a slot is at most their count, and is zero exactly when none is placed there |
| Rules.Forbidden0 | ParallelSched.py:73 | the forbidden slots of a group after the 0-based conversion |
| Rules.Preferred0 | ParallelSched.py:72 | the preferred slots of a group after the 0-based conversion |
| Rules.InRange | ParallelSched.py:76-89 | the domain `0 .. num_sessions - 1` of every own and joint variable |
| Rules.OwnDistinct | ParallelSched.py:81-84 | a group's own sessions are pairwise in different slots |
| Rules.JointApart | ParallelSched.py:92-96 | a joint session is in no slot of its members' own sessions |
| Rules.ForbiddenRespected | ParallelSched.py:99-109 | no own session of a group, and no joint session containing it, is in one of its forbidden slots |
| Rules.Apart | ParallelSched.py:115-129 | two groups never meet: own sessions differ, and a joint session holding either one avoids the other's own sessions |
| Rules.StrictRespected | ParallelSched.py:112-129 | every strict non-overlap pair is kept apart |
| Rules.PreferencesRespected | ParallelSched.py:143-146 | every own session of a group with preferences is in one of its preferred slots |
| Rules.GroupLoad | ParallelSched.py:152-156 | the own sessions of the listed groups placed in a slot |
| Rules.Load | ParallelSched.py:150-162 | the own and joint sessions placed in a slot, the sum line 165 bounds |
| Rules.WithinCapacity | ParallelSched.py:149-165 | no slot holds more sessions than `num_tracks` |
| Rules.Share | ParallelSched.py:170 | two joint sessions have a member in common (`set(joint1).intersection(set(joint2))` is non-empty) |
| Rules.SharingJointsApart | ParallelSched.py:168-172 | joint sessions with a member in common are in different slots |
| Rules.Valid | ParallelSched.py:75-172 | the conjunction of all hard rules: the valuations the solver may return |
| Rules.Pow10 | ParallelSched.py:140 | every priority weight `10 ** (len(conflicts) - i)` is at least 1 |
| Rules.MatchWeight | ParallelSched.py:136-140 | the weight one session collects is zero exactly when the weight is zero or no rival session shares its slot |
| Rules.PairPenalty | ParallelSched.py:135-140 | the penalty between two groups is zero exactly when the weight is zero or no pair of their sessions shares a slot |
| Rules.RivalsPenalty | ParallelSched.py:134-140 | the penalty of a group's first n conflicts is zero exactly when it overlaps none of them |
| Rules.PenaltyOf | ParallelSched.py:133-140 | the penalty of a list of prioritised conflicts is zero exactly when no listed pair overlaps |
| Rules.NoPrioritizedOverlap | ParallelSched.py:133-136 | no listed group shares a slot with one of its listed conflicts |
| Rules.Penalty | ParallelSched.py:132-140 | the objective of a valuation is zero exactly when no prioritised conflict overlaps |
| CpModel.CountAt | ParallelSched.py:149-165 | the number of tracked variables in a slot is at most the number tracked |
| CpModel.ObjectiveAppend | ParallelSched.py:175 | the objective of two lists of terms is the sum of their objectives |
| CpModel.CountAtAppend | ParallelSched.py:150-162 | tracking one more variable adds one to a slot's count exactly when that variable is in the slot |
| ModelBuilder.GeneratedHolds | ParallelSched.py:75-172 | a valid valuation satisfies every constraint of any family the builder adds |
| ModelBuilder.CoveredInRange | ParallelSched.py:76-89 | the domain constraints force every variable into 0 .. num_sessions - 1 |
| ModelBuilder.CoveredOwnDistinct | ParallelSched.py:81-84 | the pairwise constraints put a group's own sessions in distinct slots |
| ModelBuilder.CoveredJointApart | ParallelSched.py:92-96 | a joint session avoids the own sessions of each member |
| ModelBuilder.CoveredForbidden | ParallelSched.py:99-109 | no own session, and no joint session of a member, is in one of the group's forbidden slots |
| ModelBuilder.CoveredPair | ParallelSched.py:115-129 | the constraints of one strict pair keep the two groups and their joint sessions apart |
| ModelBuilder.CoveredStrict | ParallelSched.py:112-129 | every strict pair is kept apart |
| ModelBuilder.CoveredPreferences | ParallelSched.py:143-146 | every own session of a group with preferences is in a preferred slot |
| ModelBuilder.CoveredCapacity | ParallelSched.py:149-165 | no slot holds more sessions, own or joint, than there are tracks |
| ModelBuilder.CoveredSharingJoints | ParallelSched.py:168-172 | joint sessions that share a group are in different slots |
| ModelBuilder.FaithfulModelMeansValid | ParallelSched.py:75-172 | a model holding all constraint families, and no others, is satisfied exactly by the valid valuations |
| ModelBuilder.DeclareGroupVars | ParallelSched.py:76-78 | declares `group_sessions[g]` variables per group, each with domain 0 .. num_sessions - 1 |
| ModelBuilder.OwnPairs | ParallelSched.py:82-84 | adds `sessions[i] != sessions[j]` for every i < j of one group |
| ModelBuilder.AddOwnDistinct | ParallelSched.py:81-84 | covers all groups' own-distinct pairs, and adds nothing else |
| ModelBuilder.DeclareJointVars | ParallelSched.py:87-89 | declares one variable per joint session, with domain 0 .. num_sessions - 1 |
| ModelBuilder.MemberApart | ParallelSched.py:94-96 | one member's every own session differs from the joint session |
| ModelBuilder.AddJointApart | ParallelSched.py:92-96 | covers every joint session and member, and adds nothing else |
| ModelBuilder.AvoidAll | ParallelSched.py:99-109 | adds precisely `x != value` for every listed value |
| ModelBuilder.ForbiddenFor | ParallelSched.py:101-109 | a group's own sessions and its joint sessions avoid each of its forbidden slots |
| ModelBuilder.AddForbidden | ParallelSched.py:99-109 | covers the forbidden slots of every group listed in `impossible_slots` |
| ModelBuilder.CrossPairs | ParallelSched.py:116-118 | every session of the first group differs from every session of the second |
| ModelBuilder.JointAgainst | ParallelSched.py:125-129 | a joint session differs from each own session of the given group |
| ModelBuilder.StrictPair | ParallelSched.py:113-129 | the constraints of one strict pair cover all its own and joint cases |
| ModelBuilder.AddStrict | ParallelSched.py:112-129 | covers every strict pair |
| ModelBuilder.AddPreferences | ParallelSched.py:143-146 | restricts every own session of a group with preferences to its 0-based preferred slots |
| ModelBuilder.OccurrencesStep | ParallelSched.py:153-156 | one more variable adds one to a slot's count exactly when it is in the slot |
| ModelBuilder.GroupLoadStep | ParallelSched.py:152-156 | one more group adds its sessions in the slot to the load |
| ModelBuilder.TrackGroup | ParallelSched.py:152-156 | tracking a group's variables adds its sessions in each slot to that slot's count |
| ModelBuilder.TrackJoints | ParallelSched.py:159-162 | tracking the joint variables adds the joint sessions in each slot to that slot's count |
| ModelBuilder.TrackedVars | ParallelSched.py:150-162 | the tracked variables count exactly each slot's load |
| ModelBuilder.AddCapacity | ParallelSched.py:149-165 | bounds each slot's load by `num_tracks` |
| ModelBuilder.AddSharingJoints | ParallelSched.py:168-172 | puts every two joint sessions that share a group in different slots |
| ModelBuilder.AddSharingWith | ParallelSched.py:169-172 | for one joint session, keeps the constraints so far and adds that it differs from every later joint session sharing a group with it |
| ModelBuilder.ObjectiveStep | ParallelSched.py:137-140 | one more overlap term adds its weight exactly when its two sessions share a slot |
| ModelBuilder.MatchWeightStep | ParallelSched.py:136-140 | one more rival session adds the weight exactly when it meets the session |
| ModelBuilder.PairPenaltyStep | ParallelSched.py:135-140 | one more session of the group adds what it collects against the rival |
| ModelBuilder.PenaltyOfStep | ParallelSched.py:133-140 | one more prioritised entry adds its conflicts' penalty |
| ModelBuilder.RivalsPenaltyStep | ParallelSched.py:134-140 | conflict i adds its overlaps weighted `10 ** (len(conflicts) - i)` |
| ModelBuilder.MatchTermsStep | ParallelSched.py:136-140 | the overlap term of one more rival session adds its weighted overlap to the objective built so far |
| ModelBuilder.PairTermsStep | ParallelSched.py:135-140 | the terms of one more own session extend the pair's penalty by that session's weighted overlaps |
| ModelBuilder.RivalTermsStep | ParallelSched.py:134-140 | the terms of conflict i extend the penalty of the first i conflicts to the first i + 1 |
| ModelBuilder.MatchTerms | ParallelSched.py:136-140 | the terms of one session against a rival add its weighted overlaps to the objective |
| ModelBuilder.PairTerms | ParallelSched.py:135-140 | the terms of one conflict add the pair's penalty to the objective |
| ModelBuilder.RivalTerms | ParallelSched.py:134-140 | the terms of a group's conflicts add its rivals' penalty |
| ModelBuilder.AddPenalties | ParallelSched.py:132-175 | the minimised objective is `Penalty` on every valuation shaped like the model |
| ModelBuilder.BuildModel | ParallelSched.py:69-175 | the model declares the requested variables, is satisfied exactly by the valid valuations, and its objective is `Penalty` |
| AgendaAssembly.Join | ParallelSched.py:18 | `sep.join(xs)`: the items separated by `sep` |
| AgendaAssembly.JointLabel | ParallelSched.py:18-19 | the label `Joint A + B` of a joint session |
| AgendaAssembly.OwnLabels | ParallelSched.py:10-13 | the group names of the own sessions in a slot, in group order, once per session |
| AgendaAssembly.JointLabels | ParallelSched.py:16-19 | the labels of the joint sessions in a slot, in joint order |
| AgendaAssembly.SlotLabels | ParallelSched.py:10-19 | what a 1-based slot lists: own labels first, then joint labels |
| AgendaAssembly.AgendaOf | ParallelSched.py:5-21 | the agenda of a valuation: keys 1 .. num_sessions, each with its slot's labels |
| AgendaAssembly.Copies | ParallelSched.py:13 | n copies of a label |
| AgendaAssembly.CopiesStep | ParallelSched.py:13 | one more copy appends the label |
| AgendaAssembly.OwnLabelsStep | ParallelSched.py:10-13 | one more group appends its labels for the slot |
| AgendaAssembly.JointLabelsStep | ParallelSched.py:16-19 | one more joint session appends its label exactly when it is in the slot |
| AgendaAssembly.PlacedStep | ParallelSched.py:11-13 | one more session of the group appends its name exactly to its 1-based slot |
| AgendaAssembly.PlaceGroupStep | ParallelSched.py:12-13 | appending the group to the slot of its session i places the first i + 1 sessions |
| AgendaAssembly.PlaceGroup | ParallelSched.py:11-13 | appends the group's name to the slot of each of its sessions, in order |
| AgendaAssembly.PlacedGroup | ParallelSched.py:10-13 | once a group is placed after the groups before it, each slot lists the groups so far |
| AgendaAssembly.PlaceGroups | ParallelSched.py:10-13 | each slot lists the groups with a session there, in group order, once per session |
| AgendaAssembly.ListedStep | ParallelSched.py:16-19 | one more joint session appends its label to its 1-based slot |
| AgendaAssembly.PlaceJoints | ParallelSched.py:16-19 | each slot then lists its own sessions followed by the labels of its joint sessions |
| AgendaAssembly.CollectSolution | ParallelSched.py:5-21 | the result is the agenda of the valuation: keys 1 .. num_sessions, each with its own and joint labels |
| AgendaAssembly.OwnLabelsCount | ParallelSched.py:10-13 | a slot holds as many group labels as there are own sessions in it |
| AgendaAssembly.JointLabelsCount | ParallelSched.py:16-19 | a slot holds as many joint labels as there are joint sessions in it |
| AgendaAssembly.SlotSize | ParallelSched.py:5-21 | the entries of slot k are as many as the sessions the capacity rule counts in slot k - 1 |
| AgendaAssembly.SlotsWithinTracks | ParallelSched.py:149-165 | the agenda of a valid valuation has at most `num_tracks` entries per slot |
| AgendaAssembly.OwnLabelsMember | ParallelSched.py:10-13 | a group is listed in a slot exactly when it is a group with a session there |
| AgendaAssembly.OwnLabelsAreGroups | ParallelSched.py:10-13 | every own label is a group with a session in that slot |
| AgendaAssembly.JointLabelsMember | ParallelSched.py:16-19 | a label is a joint label of a slot exactly when some joint session in that slot carries it |
| AgendaAssembly.AgendaEntries | ParallelSched.py:5-21 | every slot 1 .. n is a key; its entries are exactly the groups and joint labels placed at value + 1 |
| AgendaAssembly.OwnSessionListed | ParallelSched.py:12-13 | a group's session at 0-based slot s is listed under key s + 1 |
| AgendaAssembly.JointSessionListed | ParallelSched.py:17-19 | a joint session at 0-based slot s is listed as `Joint A + B` under key s + 1 |
| AgendaAssembly.OwnSlotsAsRequested | ParallelSched.py:99-146 | for a valuation respecting preferences and forbidden slots (as every valid one does), every 1-based slot a group is listed in is one of its preferred slots and none of its impossible ones, as the caller wrote them |
| AgendaAssembly.OwnSlotListed | ParallelSched.py:10-13 | a group with a session in 0-based slot k - 1 is listed under key k |
| AgendaAssembly.SlotRequested | ParallelSched.py:99-146 | a 1-based slot holding an own session of a group is among the group's preferences, when it has any, and not among its impossible slots |
| AgendaAssembly.OccurrencesSum | ParallelSched.py:16-19 | summed over all slots, the joint sessions placed in each are all of them |
| AgendaAssembly.GroupLoadSum | ParallelSched.py:10-13 | summed over all slots, the own sessions placed in each are all that were requested |
| AgendaAssembly.AgendaTotal | ParallelSched.py:5-21 | the agenda lists `sum(group_sessions.values()) + len(joint_sessions)` labels in total |
| AgendaAssembly.AgendaNotEmpty | ParallelSched.py:7 | with at least one slot the agenda has key 1, so it is not empty |
| ChangeDistance.IsSpace | ParallelSched.py:36-37 | the characters Python's `str.strip()` removes |
| ChangeDistance.TrimStart | ParallelSched.py:36-37 | drops exactly the leading whitespace |
| ChangeDistance.TrimEnd | ParallelSched.py:36-37 | drops exactly the trailing whitespace |
| ChangeDistance.TrimmedSurrounds | ParallelSched.py:36-37 | trimming both ends leaves the part between a whitespace prefix and a whitespace suffix |
| ChangeDistance.Strip | ParallelSched.py:36-37 | `str.strip()`: a substring of the label reached by dropping only whitespace at both ends, with no whitespace left at either end |
| ChangeDistance.StripUnpadded | ParallelSched.py:36-37 | a label with no whitespace at its ends is kept as it is |
| ChangeDistance.StripIdempotent | ParallelSched.py:36-37 | stripping twice is stripping once |
| ChangeDistance.StrLe | ParallelSched.py:36-37 | the code-point order on strings that `sorted` uses |
| ChangeDistance.StrLeTotal | ParallelSched.py:36-37 | the string order that `sorted` uses is total |
| ChangeDistance.StrLeAntisymmetric | ParallelSched.py:36-37 | and antisymmetric |
| ChangeDistance.StrLeTransitive | ParallelSched.py:36-37 | and transitive |
| ChangeDistance.StrLeReflexive | ParallelSched.py:36-37 | and reflexive |
| ChangeDistance.Sorted | ParallelSched.py:36-37 | each item precedes the next in that order |
| ChangeDistance.Insert | ParallelSched.py:36-37 | inserting into a sorted list keeps it sorted and adds exactly the item |
| ChangeDistance.Sort | ParallelSched.py:36-37 | `sorted`: a sorted permutation of its input |
| ChangeDistance.SortedOrdered | ParallelSched.py:36-37 | in a sorted list every earlier item precedes every later one |
| ChangeDistance.SortedHeadLeast | ParallelSched.py:36-37 | the head of a sorted list precedes all its members |
| ChangeDistance.SortedTail | ParallelSched.py:36-37 | the tail of a sorted list is sorted |
| ChangeDistance.SortedSameHead | ParallelSched.py:36-37 | two sorted permutations of each other start alike |
| ChangeDistance.MultisetTail | ParallelSched.py:36-37 | permutations with the same head have permuted tails |
| ChangeDistance.SortedUnique | ParallelSched.py:36-37 | two sorted permutations of each other are equal, so the sort result does not depend on the input order |
| ChangeDistance.StripAll | ParallelSched.py:36-37 | `[item.strip() for item in items]`, item by item |
| ChangeDistance.Normalize | ParallelSched.py:36-37 | a slot's labels stripped and then sorted |
| ChangeDistance.Missing | ParallelSched.py:44-46 | the count of items absent from the other list is at most their number, and zero exactly when every item is present |
| ChangeDistance.MissingStep | ParallelSched.py:44-46 | one more item adds one exactly when it is absent |
| ChangeDistance.CountMissing | ParallelSched.py:44-46 | the loop counts the items absent from the previous slot |
| ChangeDistance.SlotChanges | ParallelSched.py:33-46 | the count of one slot: normalised current labels absent from the normalised previous labels |
| ChangeDistance.Get | ParallelSched.py:33 | `previous_agenda.get(sess, [])` |
| ChangeDistance.Falsy | ParallelSched.py:27 | `not previous_agenda`: None or an empty dictionary (also lines 195 and 203) |
| ChangeDistance.Changes | ParallelSched.py:24-48 | 0 for a falsy previous agenda, otherwise the slot counts summed over the keys of the current agenda |
| ChangeDistance.CalculateChanges | ParallelSched.py:24-48 | the loop over the slots returns `Changes`, and 0 when the previous agenda is None or empty |
| ChangeDistance.MissingRemove | ParallelSched.py:44-46 | taking out one item lowers the count by one exactly when that item was absent |
| ChangeDistance.MissingPermuted | ParallelSched.py:44-46 | the count does not depend on the order of the items |
| ChangeDistance.MissingSameMembers | ParallelSched.py:45 | the count depends only on the members of the previous list |
| ChangeDistance.StripAllAppend | ParallelSched.py:36-37 | stripping a concatenation strips each part |
| ChangeDistance.MapAll | ParallelSched.py:36-37 | a list comprehension applying a function item by item |
| ChangeDistance.MapAllRemove | ParallelSched.py:36-37 | mapping a list with one item removed removes exactly that item's image |
| ChangeDistance.MapAllPermuted | ParallelSched.py:36-37 | mapping preserves permutations |
| ChangeDistance.StripAllPermuted | ParallelSched.py:36-37 | stripping preserves permutations |
| ChangeDistance.SlotChangesUnsorted | ParallelSched.py:36-46 | sorting does not change a slot's count: it counts the stripped labels absent from the stripped previous labels |
| ChangeDistance.SlotChangesPermuted | ParallelSched.py:36-46 | a slot's count is the same for any order of either slot's labels |
| ChangeDistance.SlotChangesZero | ParallelSched.py:44-46 | a slot has no changes exactly when every stripped label appears stripped in the previous slot |
| ChangeDistance.SlotChangesBound | ParallelSched.py:44-46 | a slot contributes at most its number of labels |
| ChangeDistance.SlotChangesSelf | ParallelSched.py:32-46 | a slot compared with itself has no changes |
| ChangeDistance.ChangesBound | ParallelSched.py:24-48 | the change count is at most the total number of labels in the current agenda |
| ChangeDistance.ChangesSelf | ParallelSched.py:24-48 | an agenda compared with itself has no changes |
| ChangeDistance.ChangesZero | ParallelSched.py:32-46 | for a non-empty previous agenda, no changes exactly when every stripped label is found stripped in the same slot of the previous one (a missing slot counts as empty) |
| ChangeDistance.ChangesIgnoreOrder | ParallelSched.py:32-46 | reordering the labels within slots of either agenda leaves the count unchanged |
| ChangeDistance.ChangesAddLabel | ParallelSched.py:32-46 | appending a label to a slot adds one change exactly when the previous agenda is non-empty and lacks the stripped label in that slot |
| ChangeDistance.SlotChangesAddLabel | ParallelSched.py:38-46 | appending a label to a slot's list adds one to the slot's count exactly when its stripped form is absent from the previous slot |
| ChangeDistance.MissingAppend | ParallelSched.py:44-46 | appending an item adds one to the count exactly when it is absent |
| ChangeDistance.MissingOne | ParallelSched.py:44-46 | exactly one absent item gives a count of one |
| ChangeDistance.ChangesExactlyOne | ParallelSched.py:24-48 | an agenda that differs from a non-empty previous one by exactly one label counts one change |
| KeySums.HasMember | ParallelSched.py:32 | a non-empty set of slots has a slot to visit |
| KeySums.SumOverRemove | ParallelSched.py:32 | the sum over the slots does not depend on which slot is visited first |
| KeySums.SumOverCongruent | ParallelSched.py:32-46 | equal per-slot counts give equal totals |
| KeySums.SumOverMonotone | ParallelSched.py:32-46 | smaller per-slot counts give a smaller total |
| KeySums.SumOverZero | ParallelSched.py:32-46 | the total is zero exactly when every slot's count is |
| KeySums.SumOverAdd | ParallelSched.py:32-46 | the total of per-slot sums is the sum of the totals |
| KeySums.SumOverIndicator | ParallelSched.py:32-46 | a count that is one in a single slot totals one exactly when that slot is a key |
| Search.SoundSolver | ParallelSched.py:180-184 | every valuation the solver returns satisfies the model |
| Search.AgendaOfValid | ParallelSched.py:184 | an agenda collected from a valuation meeting every rule |
| Search.ModelOf | ParallelSched.py:69-175 | a model satisfied exactly by the valid valuations, whose objective is `Penalty` |
| Search.SolvedAs | ParallelSched.py:183-186 | None when the solver finds nothing, else the agenda of the valuation it found |
| Search.ScheduleOnce | ParallelSched.py:67-186 | the model it builds is satisfied exactly by the valid valuations and has objective `Penalty` (`ModelOf`); no valuation from the solver gives None, and a valuation gives its agenda (`SolvedAs`) and is valid |
| Search.Iterations | ParallelSched.py:195-199 | one iteration for a falsy previous agenda, otherwise `num_iterations`, and none when it is negative |
| Search.BestBy | ParallelSched.py:191-212 | the outcome of the loop: no best exactly when every result is falsy, else the first result of least cost, strictly cheaper than every earlier one |
| Search.BestChoice | ParallelSched.py:207-212 | that outcome with the change count against the previous agenda as the cost |
| Search.BestBySkip | ParallelSched.py:203-204 | an empty solution leaves the best choice unchanged, whatever the cost function |
| Search.BestByImprove | ParallelSched.py:207-212 | the first solution, or one costing strictly less, becomes the best |
| Search.BestByKeep | ParallelSched.py:210 | a solution costing at least as much as the best leaves it in place |
| Search.SelectBest | ParallelSched.py:191-212 | no best exactly when every solution is empty; otherwise the first solution with the fewest changes, and its count |
| Search.BestByUnique | ParallelSched.py:191-212 | the best solution and its cost are determined by the solutions |
| Search.BestWithoutPrevious | ParallelSched.py:195-207 | without a previous agenda the best has no changes and is the first non-empty solution |
| Search.SolvedRuns | ParallelSched.py:199-200 | result i is what the solver gives with seed i on model i |
| Search.RunsAs | ParallelSched.py:199-200 | and model i is the model of the configuration |
| Search.SolveRepeatedly | ParallelSched.py:199-200 | run `i` builds the model of the configuration and returns exactly what the single-solution scheduler gives for the solver's answer on that model with seed `i` |
| Search.EmptyResults | ParallelSched.py:203-204 | with at least one slot a run's result is skipped exactly when the solver found nothing; with no slot every result is `{}` and skipped |
| Search.BestAmongResults | ParallelSched.py:207-212 | the kept solution is one of the results, so it is the agenda of a valid valuation when every result is |
| Search.SelectionOutcome | ParallelSched.py:201-212 | with a slot nothing is kept exactly when every run failed; with no slot nothing is kept; without a previous agenda the single run is kept unless empty |
| Search.ScheduleSessions | ParallelSched.py:189-212 | defaults `previous = None`, `numIterations = 100`; one run without a previous agenda, `numIterations` runs otherwise (none if negative); run `i` is the solver's answer on the model of the configuration; the best is the first with the fewest changes, the agenda of a valid valuation, and, with at least one slot, absent exactly when the solver failed on every run |
| Scenarios.OccurrencesSingle | ParallelSched.py:149-165 | a single session is counted in its own slot only |
| Scenarios.LoadOfTwo | ParallelSched.py:149-165 | with groups A and B the load of a slot is their sessions plus the joint sessions there |
| Scenarios.LabelsOfTwo | ParallelSched.py:10-13 | with groups A and B and no joint sessions a slot lists A's copies then B's |
| Scenarios.ForbiddenFirstForced | ParallelSched.py:99-165 | two groups, two slots, one track, A forbidden in slot 1: the only valid schedule puts B first and A second |
| Scenarios.ForbiddenAndCapacityForce | ParallelSched.py:99-165 | the slot range, the forbidden slot and the single track alone already force that schedule |
| Scenarios.ForbiddenFirstPlacesA | ParallelSched.py:99-103 | the slot range and the forbidden slot put A in slot 2 |
| Scenarios.ForbiddenFirstScheduleValid | ParallelSched.py:67-175 | that schedule meets every rule |
| Scenarios.ForbiddenFirstAgenda | ParallelSched.py:5-28 | its agenda is `{1: [B], 2: [A]}` and has no changes against an empty previous agenda |
| Scenarios.StrictPairApart | ParallelSched.py:112-118 | a strict pair A, B never shares a slot |
| Scenarios.LoadOfThree | ParallelSched.py:149-165 | with groups A, B and C and no joint sessions the load of a slot is their sessions there |
| Scenarios.StrictPairFreeC | ParallelSched.py:67-175 | with A and B apart, the third group may take either slot |
| Scenarios.JointPairShares | ParallelSched.py:92-165 | a joint session of A and B in two slots forces A and B into the other slot, which then holds two sessions |
| Scenarios.JointPairOneTrack | ParallelSched.py:92-165 | with one track that configuration has no valid schedule |
| Scenarios.JointPairTwoTracks | ParallelSched.py:67-175 | with two tracks A and B in slot 1 and their joint session in slot 2 is valid |

## Left out

- The CP-SAT solver (lines 178-180) is a parameter `solve(seed, model)`. It may return no solution, or a valuation satisfying the model. The model does not capture that the solver minimises the objective. What is proved is what the objective is (`Penalty`) and which valuations it may return (`Valid`).
- The random seed (line 179) is not modelled. The iteration number stands in for the seed passed to the solver.
- A solver status other than FEASIBLE or OPTIMAL (line 183) is modelled as the solver returning no valuation.
- The Boolean indicator variables of lines 137-139, 154-156 and 160-162 are not declared. The overlap terms (`OverlapTerm`) and the per-slot count (`AtMost`) state directly the values those indicators are forced to take.
- Variable names (lines 78, 89, 137, 154, 160) are not modelled. Variables are indexed by group and position instead.
- Lookups that would raise `KeyError` for unknown groups (lines 95, 101, 116, 117, 125, 128, 135, 136, 144) are excluded by the precondition `WellFormed`, which asks that every group named anywhere in the input is a key of `group_sessions`. The lookups of lines 95, 101, 116 and 144 are reached on every input naming such a group, so that input makes the source fail. `WellFormed` also excludes some inputs that the source accepts silently, because the failing lookup is never reached:
  - a prioritised entry for an unknown group with an empty conflict list, where the loop of line 134 does not run;
  - an unknown rival of a group with no own sessions, where line 136 is not reached;
  - a strict pair whose second group is unknown, when the first has no own sessions and belongs to no joint session, where lines 117 and 125 are not reached.
- SchedConfig.Config: the scheduler (`ModelBuilder`, `Search`) is modelled only for session counts that are non-negative (`sessions: map<Group, nat>`) and for preferences and forbidden slots given as lists of integers (`seq<int>`, converted by `ZeroBased`). `SlotConversion` models the general conversion of lines 56-62, but what the later lines then do with the other values is not modelled:
  - a tuple value, such as `{'A': (1, 2)}`, is returned unconverted by line 62, so lines 99-109 apply its items as if they were already 0-based;
  - an integer value, such as `{'A': 3}`, becomes `2`, and iterating over it at line 102 (line 146 for preferences) raises `TypeError`;
  - non-integer items of a list are dropped by line 60 without notice, so the constraints see only the integer items;
  - a negative count in `group_sessions` makes `range` at line 77 declare no variables for that group.
- Search.SolveRepeatedly: each run's model is stated only by what it means (`ModelOf`: satisfied exactly by `Valid`, objective `Penalty`), not as one and the same value across runs. The source builds an identical model on every iteration (lines 199-200). A solver whose answer depends on how a model is written, and not only on what it means, could be given different but equivalent models on different runs here. The same holds for `Search.ScheduleSessions`.
- Printing the best solution (lines 214-234) is not modelled. `schedule_sessions` returns nothing; the model exposes the final `best_solution` and `min_changes` instead.
- Rules.Pow10: priority weights `10 ** (len(conflicts) - i)` (line 140) are unbounded integers here, as are the objective (`Objective`, line 175) and `Penalty`. CP-SAT holds objective coefficients as 64-bit integers, so a group with 19 or more prioritised conflicts gets a first weight of at least 10^19, which does not fit, and building the objective fails. That 64-bit limit is not modelled.
- `float('inf')` (line 192) is modelled as `None` in `Option<nat>`.
- The `tqdm` progress bar (line 199) is not modelled.
- The driver `fall2024.py`, which builds one concrete configuration and calls `schedule_sessions`, is not part of this model.
- `sorted` (lines 36-37) orders strings by code point, as Python does. `str.strip` uses Python's set of whitespace characters. Python's string methods are otherwise not modelled.
- Changes on concrete agendas (for example, two swapped groups giving 2 changes) are not worked out as scenarios. The general lemmas `ChangesAddLabel`, `ChangesExactlyOne`, `ChangesZero` and `ChangesBound` cover those cases.
