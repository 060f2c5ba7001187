# Verified models of the marketing platform's core

A Dafny model of the parts of the platform that carry real algorithms, state machines or concurrency,
with proofs of what they keep. Code that updates state in place is modelled by classes and methods, each
proved against a specification function; the properties are lemmas about those functions. Concurrent code
is modelled as a state machine over its atomic steps, and the lemmas hold for every interleaving.

Run `dafny verify dfyconfig.toml --warn-contradictory-assumptions` here.

| Part | Modules |
|---|---|
| Shared | `Wrappers`, `Sequences`, `JsonValues`, `RawJson`, `Texts`, `Sorting`, `Schedules` |
| Customer attributes: patch semantics, and the in-place engine on nested maps | `AttributeMerge`, `AttributePatch`, `AttributeHeap`, `AttributeEngine` |
| Customer upsert: canonical form and its hash | `CustomerIdentity`, `CustomerUpsert`, `UpsertRequest`, `UpsertOutcome` |
| Customer number | `CustomerNumber` |
| Workspace triggers: change logs, live automations, cascades, the recomputation queue and its worker, list statuses | `ChangeLog`, `TimelineEntries`, `TimelineText`, `Automations`, `Triggers`, `Timeline`, `TimelineRows`, `TimelineHistory`, `AutomationRuns`, `ListStatus`, `MessageEvents`, `SegmentRequeue`, `SegmentWorker`, `SegmentPass`, `SegmentDrain`, `Workspaces` |
| Process lifecycle | `ServerStart`, `RequestDrain`, `Realtime` |
| Broadcast updates | `Broadcast`, `BroadcastOutcome` |
| Slugs, deliveries, campaigns, scopes | `Slug`, `Delivery`, `EffectKey`, `Campaign`, `Scopes` |

## What is assumed of library code

Lower-casing works character by character (`strings.ToLower` maps runes). Of the character map the upsert
lemmas use only what `CustomerIdentity.Lawful` lists: it is idempotent, keeps spaces spaces, and fixes
ASCII lower-case letters; the slug lemmas use only that it fixes the slug characters. Of NFKC, trimming and lower-casing
`EffectKey.PinnedDownIffWellFormed` uses what `EffectKey.Lawful` lists. UUID parsing returns a
trimmed, non-empty canonical text that parses to itself, and the customer number pattern rejects the empty
text. E-mail, locale, time zone and alphanumeric checks, NFKC, digests and metadata sizes are arbitrary
functions. Strings are sequences of code points, except in `EffectKey`, where they are decoded units with
stray bytes kept apart. `sort` is any algorithm that sorts.

## Where the code does less than one might expect

- Merging differs from RFC 7396 as soon as the patch holds a null: nulls are stored, not removed.
- Campaign weights are added in 64 bits. Validation accepts weights that sum to 10,000 only after wrapping,
  and then neither positions nor hashes are shared by weight (`Campaign.ExactSharesIffNoWrap`, `Campaign.HashBias`).
- `json.Marshal` replaces invalid UTF-8, so an effect key separates dimensions exactly when they are
  well formed (`EffectKey.PinnedDownIffWellFormed`).
- `requestWg.Wait` is no barrier for a request between its shutdown check and its `Add`
  (`RequestDrain.ServedAfterWaitIffInWindow`).
- A second call of `App.Start` closes an already closed channel when there are no realtime dependencies and the
  role serves HTTP; with realtime dependencies it returns their error first (`ServerStart.NoPanicIffAtMostOneStarter`).
- The waited branch of `RealtimeDependencies.Shutdown` proves the goroutines gone exactly when, as the first call
  entered, no component was absent but the one being launched (`Realtime.WaitedCanLeaveRunners`).
- The worker that empties the recomputation queue can refill it: its own segment write queues the contact again
  when a live automation on that segment enrols it (`SegmentRequeue.SegmentWriteQueuesIff`).
- A rejected broadcast update leaves its patch in the broadcast it was given (`Broadcast.StoredBroadcast.Update`).

## Model

| member | source | states |
|---|---|---|
| `AttributeHeap.DeepMerge` | internal/domain/customer.go:1055-1065 | In place, whatever order the incoming members are visited in, the target ends at the recursive right-biased merge; it owns what it owned and all of the incoming maps, which it now shares. |
| `AttributeMerge.MergeIdempotent` | internal/domain/customer.go:1055-1065 | Merging the same document twice is merging it once. |
| `AttributeMerge.MergeIsMergePatchIffNullFree` | internal/domain/customer.go:1055-1065 | The merge agrees with MergePatch of section 2 of RFC 7396 on a target exactly when the incoming document holds no null; with a null the two always differ. |
| `AttributeMerge.AssociativeIffCompatible` | internal/domain/customer.go:1055-1065 | Merging b then c is merging their merge, for every current document, exactly when c never has an object where b has a non-object. |
| `AttributeMerge.IncompatibleWitness` | internal/domain/customer.go:1060-1066 | For b and c that break that condition, a current document on which the two groupings differ. |
| `AttributeEngine.UnsetPath` | internal/domain/customer.go:1067-1077 | The in-place walk and delete removes exactly the path, or nothing when the walk meets a missing member or a non-object. |
| `AttributeEngine.ApplyUnset` | internal/domain/customer.go:1024-1035 | Fails exactly when some path has a blank segment; otherwise removes all paths one after the other. |
| `AttributeEngine.CloneAttributes` | internal/domain/customer.go:1036-1045 | A fresh deep copy with the same value, the empty object for no attributes. |
| `AttributeEngine.ApplyPatch` | internal/domain/customer.go:1002-1034 | Succeeds exactly for accepted patches; the result is fresh and equals replace, then merge, then unset on values; nothing that existed is written. |
| `AttributeEngine.ValidateAttributes` | internal/domain/customer.go:291-305 | A trial run on no attributes accepts exactly the patches that apply to any attributes. |
| `AttributePatch.UnsetOrderIrrelevant` | internal/domain/customer.go:1024-1035 | Paths with the same set, in any order and repeated at will, leave the same object: the one with every member below a dead path pruned. |
| `AttributePatch.PatchUnsetOrderIrrelevant` | internal/domain/customer.go:1024-1035 | A patch gives the same result for every permutation and duplication of its unset list. |
| `AttributePatch.PathSurvivesIffUncovered` | internal/domain/customer.go:1067-1077 | A path is still there exactly when it was and no unset path is a prefix of it, and then its leaf has its value. |
| `AttributePatch.PatchKeepsExactlyUncovered` | internal/domain/customer.go:1002-1034 | The same for a whole patch: of the replaced and merged document exactly the uncovered paths remain, with their leaf values. |
| `AttributePatch.CanonicalPatchEquivalent` | internal/domain/customer.go:321-334 | The canonical set and merge documents give the same result on every object as those received, and canonicalising again changes nothing. |
| `AttributePatch.SetForgetsCurrent` | internal/domain/customer.go:1011-1015 | A patch with a set document gives the same result, or the same failure, on any two current documents. |
| `AttributePatch.SetAloneIsResult` | internal/domain/customer.go:1002-1015 | A set document by itself is the result; a patch with no part leaves the current document. |
| `AttributePatch.MergeAloneIsMergePatch` | internal/domain/customer.go:1016-1023 | A merge document by itself gives what RFC 7396 gives exactly when it holds no null. |
| `AttributePatch.MergedValues` | internal/domain/customer.go:1055-1065 | A value that is no object is at a path after a merge exactly when the incoming document has it there, or the current one has and the incoming one says nothing about the path. |
| `AttributePatch.PartsInTurn` | internal/domain/customer.go:1002-1034 | A patch is its set, its merge and its unset part applied one after the other. |
| `AttributePatch.UnsetRemovesExactly` | internal/domain/customer.go:1024-1033 | Unsetting a dotted path fails exactly on a blank segment; otherwise exactly that path and what is below it is gone. |
| `AttributePatch.RefusedIff` | internal/domain/customer.go:1002-1053 | A patch fails exactly when its set or merge document is no JSON object or a path segment is blank, whatever the attributes. |
| `RawJson.DecodeEncode` | internal/domain/customer.go:321-334 | Decoding the encoding of a document, members in ascending key order, gives it back. |
| `RawJson.LastMemberWins` | internal/domain/customer.go:1047-1053 | Of members with the same name the last one counts. |
| `RawJson.NamesDecoded` | internal/domain/customer.go:1047-1053 | A decoded object has exactly the names of the members written. |
| `CustomerIdentity.NormalizeE164` | internal/domain/customer.go:205-228 | The scanning loop accepts and returns exactly what the declarative form says: 00 read as a plus, separators dropped, the rest in E.164 form. |
| `CustomerIdentity.NormalPhoneFixed` | internal/domain/customer.go:205-228 | A normalised number is in E.164 form and is its own normal form. |
| `CustomerIdentity.PhoneIsItsDigits` | internal/domain/customer.go:205-228 | A number is accepted exactly with a plus or a double zero in front and 7 to 15 digits after it, the first not zero, with nothing but spaces, tabs, hyphens, brackets and dots between; it becomes a plus and the digits. |
| `CustomerIdentity.NormalizeIdentity` | internal/domain/customer.go:146-176 | Type and value are rewritten as specified, by type, or the identity is rejected. |
| `CustomerIdentity.NormalIsFixed` | internal/domain/customer.go:146-176 | A normalised identity is accepted again and stays as it is. |
| `CustomerIdentity.KeyDeterminesIdentity` | internal/domain/customer.go:490-494 | Two supported identities have the same duplicate-check key exactly when type and value agree. |
| `UpsertRequest.ValidateLocator` | internal/domain/customer.go:89-144 | Exactly one lookup form; the one given is rewritten to its canonical text. |
| `UpsertRequest.ValidateProfile` | internal/domain/customer.go:274-308 | Accepts and rewrites exactly as specified; attribute documents become canonical. |
| `UpsertRequest.UpsertInput.ValidateIdentities` | internal/domain/customer.go:482-511 | The loop with its key set and primary counters accepts exactly the lists whose identities normalise, are pairwise different and have one primary per type at most, and rewrites each in place. |
| `UpsertRequest.ValidateTags` | internal/domain/customer.go:515-531 | The result is the sorted set of the trimmed tags. |
| `UpsertRequest.ValidateMemberships` | internal/domain/customer.go:536-563 | Accepts exactly pairwise different, well-formed memberships and rewrites list id and status. |
| `UpsertRequest.UpsertInput.Validate` | internal/domain/customer.go:463-565 | Accepts exactly the specified inputs, and then every field holds its canonical value. |
| `UpsertRequest.CanonicalForm` | internal/domain/customer.go:567-600 | The value that is encoded and hashed: a copy, validated, with identities and memberships sorted. |
| `UpsertOutcome.AcceptedIffNoReason` | internal/domain/customer.go:463-565 | An input is accepted exactly when none of the twenty reasons to refuse it applies, each stated on the fields as given. |
| `UpsertOutcome.AcceptedBecomes` | internal/domain/customer.go:463-565 | What an accepted input becomes, field by field: which texts are trimmed or put in lower case, what each identity reads, what a blank list status becomes, and what is left alone. |
| `UpsertOutcome.ReadingIsNormal` | internal/domain/customer.go:146-176 | The canonical type and value of an identity by type, and that nothing else of it changes. |
| `UpsertOutcome.StatusAccepted` | internal/domain/customer.go:553-561 | A blank list status becomes active, any other its trimmed lower-case text; it is accepted exactly when blank or one of the five words. |
| `UpsertOutcome.HashFormTellsApart` | internal/domain/customer.go:567-600 | The hashed forms of two accepted inputs agree exactly when what validation makes of them agrees up to the order of identities and list memberships. |
| `UpsertOutcome.CopyLosesEmptyMetadata` | internal/domain/customer.go:567-574 | The copy that is hashed differs from the input in empty metadata alone. |
| `CustomerUpsert.ValidateIdempotent` | internal/domain/customer.go:463-565 | A validated input is accepted again and does not change. |
| `CustomerUpsert.CanonicalTagsListSet` | internal/domain/customer.go:515-531 | Canonical tags ascend strictly and are exactly the trimmed tags, so only the set of tags matters. |
| `CustomerUpsert.HashFormIgnoresOrder` | internal/domain/customer.go:567-600 | Neither acceptance nor the hashed form changes under permutations of identities and list memberships, nor under permutation and repetition of tags. |
| `CustomerUpsert.HashFormFixed` | internal/domain/customer.go:567-600 | The hashed form is itself accepted and hashes as itself. |
| `CustomerUpsert.HashFormOfValidated` | internal/domain/customer.go:567-600 | An input and its validated form have the same hashed form. |
| `Sorting.AnySortIsSorted` | internal/domain/customer.go:579-593 | With the duplicates rejected the sort keys are distinct, so whatever algorithm sorts finds the same list. |
| `Texts.LessMeans` | internal/domain/customer.go:579-593 | The order of keys: the first character that differs decides, and a text comes after its beginnings. |
| `CustomerNumber.FoldUuid` | internal/domain/customer.go:1104-1110 | The folding loop gives (UUID as a big-endian integer + offset) mod 36^6, with every intermediate value inside the unsigned 64-bit range. |
| `CustomerNumber.Padded` | internal/domain/customer.go:1111-1112 | Padding has no negative count and gives the fixed-width numeral. |
| `CustomerNumber.Generate` | internal/domain/customer.go:1087-1119 | Fails exactly for a sequence outside 1 to 9999 or the nil UUID; otherwise returns the number. |
| `CustomerNumber.ShortFormIffFourDigitYear` | internal/domain/customer.go:32 | The number matches the short alternative of the pattern exactly for years 0 to 9999. |
| `CustomerNumber.NumberDecodes` | internal/domain/customer.go:1087-1119 | Workspace sequence, second and suffix can be read back from the number. |
| `CustomerNumber.FirstByteCountsMost` | internal/domain/customer.go:1104-1108 | The UUID is folded with its first byte counting most. |
| `CustomerNumber.ExampleNumber` | internal/domain/customer_test.go:15-24 | The number of the documented example, part by part. |
| `CustomerNumber.OffsetsDistinct` | internal/domain/customer.go:1110 | Offsets below 36^6 give pairwise different numbers. |
| `CustomerNumber.FreeOffset` | internal/domain/customer.go:1085-1110 | For any taken set of fewer than n numbers, n at most 36^6, some offset below n gives a number that is free. |
| `ChangeLog.DiffColumns` | internal/database/init.go:700-732 | Column by column, the accumulated changes are exactly the cells that are distinct, with old and new value. |
| `ChangeLog.DiffProperties` | internal/database/init.go:1000-1020 | The loop over the keys of both objects, in any order, computes the same per-key difference. |
| `ChangeLog.DiffEmptyIffEqual` | internal/database/init.go:1000-1020 | The difference is empty exactly when nothing changed; SQL NULL and JSON null count as different. |
| `TimelineHistory.ContactLogReplays` | internal/database/init.go:688-743 | Over every run of writes, replaying the logged differences of a contact in append order turns its columns before the run into those after it, and undoing them turns those after into those before; both up to SQL NULL against JSON null. |
| `TimelineHistory.OneContactUpdate` | internal/database/init.go:725-739 | A contact update logs its difference, or nothing when no column changed. |
| `TimelineHistory.EventLogReplays` | internal/database/init.go:973-1047 | The same replay and undo for the properties of a custom event. |
| `TimelineHistory.OneEventUpdate` | internal/database/init.go:993-1047 | Every event update that goes through logs one entry holding its property difference, empty or not. |
| `TimelineText.DifferencesReadBack` | internal/database/init.go:700-740 | The stored `changes` documents determine the logged differences. |
| `TimelineText.SegmentKindIffText` | internal/database/init.go:918-938 | The two texts the queue trigger tests for are the kinds of segment entries and of nothing else, whatever channels and events are called. |
| `TimelineText.ContactDocumentsDiffer` | internal/database/init.go:700-732 | Contact entries with the same stored document tell the same changes; no two columns share a name. |
| `TimelineRows.ContactInserted` | internal/database/init.go:688-741 | A new contact is stored, adds one contact.created row and is queued. |
| `TimelineRows.ContactUpdated` | internal/database/init.go:698-741 | An update in which any column changed adds one contact.updated row with the old and new value of exactly the columns that changed, and queues the contact; one in which none did changes the contact row alone. |
| `TimelineRows.MembershipInserted` | internal/database/init.go:753-771 | A new membership adds one row of the kind of its status, with list and status, and queues the contact. |
| `TimelineRows.MembershipUpdated` | internal/database/init.go:773-806 | A membership update tells a removal first, else the change of status by both statuses, else nothing. |
| `TimelineRows.MessageInserted` | internal/database/init.go:815-819 | A new message adds one row of kind channel.sent with its five columns, and queues the contact. |
| `TimelineRows.MessageUpdated` | internal/database/init.go:820-857 | A message update stores the row and adds one row for each of the five marks set or moved, in order, then one with the other columns that differ. |
| `TimelineRows.MembershipAfterMarks` | internal/database/init.go:941-971 | The membership of the message after its update, with its time: a new complaint beats every other status, a new bounce every one but a complaint. No other membership changes. |
| `TimelineRows.InboundInserted` | internal/database/init.go:862-891 | An inbound event adds one row of the reply, auto-reply or general kind, with type, source and the details that are not empty, and queues the recipient. |
| `TimelineRows.SegmentJoinedRow` | internal/database/init.go:893-916 | Joining stores the version and is told once, when the row is new. |
| `TimelineRows.SegmentLeftRow` | internal/database/init.go:893-916 | Leaving deletes the row and tells the version it had. |
| `TimelineRows.EventInsertedRow` | internal/database/init.go:981-1000 | A new custom event adds one row with its name, its external id and the goal columns that are set. |
| `TimelineRows.EventUpdatedRow` | internal/database/init.go:1000-1047 | An event update adds one row with the properties and goals that differ and both times; with properties that are no object it changes nothing. |
| `TimelineRows.ColumnNames` | internal/database/init.go:848-1040 | The names under which the message, inbound and goal columns are told. |
| `TimelineRows.MissesChangeNothing` | internal/database/init.go:1049-1064 | A new row under a taken key, or an update that finds no row, changes nothing. |
| `Automations.SegmentEntryHeardIff` | internal/service/automation_trigger_generator.go:161-185 | A segment entry is heard by the automations on that move and that segment, and by no others. |
| `Automations.StartIsNotHeard` | internal/domain/automation.go:55-72 | The entry an enrolment writes is of no kind an automation can listen to. |
| `Triggers.SettledEnroll` | internal/database/schema/journey_tables.go:130-252 | One run of an automation trigger: refused before any record, recorded and turned away, or recorded with one entry that queues the contact and wakes no automation. |
| `AutomationRuns.StartsIffLetIn` | internal/database/schema/journey_tables.go:118-252 | One run of an automation trigger appends an entry, queues the contact and counts an instance exactly when the condition holds, the automation is live, the address is known, a once-only automation is not used up and the guard leaves room; otherwise nothing of this changes. |
| `AutomationRuns.ConditionsSeeTheEntry` | internal/service/automation_trigger_generator.go:301-312 | A condition is judged on the tables with the entry that woke it. |
| `AutomationRuns.StartsAreApart` | internal/database/schema/journey_tables.go:215-222 | Over every run, two starts of a guarded automation for one customer are at least its cooldown apart. |
| `AutomationRuns.InstancesBounded` | internal/database/schema/journey_tables.go:201-214 | Over every run, the running instances of a customer never exceed the maximum, unless they did at the start. |
| `AutomationRuns.StartsOnce` | internal/database/schema/journey_tables.go:150-187 | Over every run, a once-only automation starts at most once for a customer, and not at all where it is on record. |
| `AutomationRuns.ListEntryHeardIff` | internal/service/automation_trigger_generator.go:161-171 | A list entry is heard by the automations on that change and that list, and by no others. |
| `AutomationRuns.NewContactHeardIff` | internal/service/automation_trigger_generator.go:161-166 | The entry of a new contact is heard by the automations on new contacts alone. |
| `AutomationRuns.ContactUpdateHeardIff` | internal/service/automation_trigger_generator.go:161-197 | The entry of a contact update is heard by the automations on any update or on a column that changed, and by no others. |
| `AutomationRuns.CustomEventHeardIff` | internal/service/automation_trigger_generator.go:155-160 | A custom event is heard by the automations on events of that name alone. |
| `AutomationRuns.EmailMarkHeardIff` | internal/service/automation_trigger_generator.go:161-166 | A mark on an e-mail is heard by the automations on that mark alone. |
| `AutomationRuns.SoleAutomation` | internal/service/automation_trigger_generator.go:258-354 | With one automation installed, appending an entry adds it, and after it a start exactly when the automation hears it and lets the contact in. |
| `Triggers.FiredIsLighter` | internal/database/init.go:1049-1064 | What the triggers of a row write issue weighs less than the write, for any number n of installed automations; so every cascade ends. |
| `Timeline.CascadesEnd` | internal/database/init.go:1049-1064 | In whatever order pending triggers run, on whatever table contents with at most n automations installed, a statement that writes k rows leads to at most (19 + 24n)k row writes and runs of automation triggers. |
| `Timeline.QueueFollowsTimeline` | internal/database/init.go:918-938 | A cascade, with the enrolments in it, only appends to the timeline, and queues exactly the emails of the appended entries that are not about segments. |
| `Timeline.QueuedIffDue` | internal/database/init.go:931-936 | On every run, an email is queued exactly when some operation logged an entry for it that recomputes, or put it back, and none has taken it out since. |
| `Timeline.OtherWritesAlwaysQueue` | internal/database/init.go:918-938 | Every entry that any write other than a segment write leads to is one that queues its contact. |
| `SegmentRequeue.SegmentWriteQueuesIff` | internal/database/init.go:893-938 | A segment write queues its contact exactly when it inserts or deletes the row and some live automation on that move and segment still enrols the contact; it writes no other row of the queue. |
| `SegmentRequeue.SegmentWriteCanRequeue` | internal/service/automation_trigger_generator.go:343-350 | Concrete tables on which joining a segment queues the contact. |
| `ListStatus.UpdateBecomesWorst` | internal/database/init.go:941-971 | One message update moves a membership to the worse of its status and the marks newly set, complaint before bounce, and logs one entry exactly when that is a change. |
| `ListStatus.StatusIsJoin` | internal/database/init.go:941-971 | Over every run that leaves a membership to the triggers its status is the join of the initial one and the bounces and complaints seen; status changes and logged entries are equal in number, two at most. |
| `MessageEvents.StatusAfterReports` | internal/repository/message_history_postgre.go:371-433 | After any sequence of delivery events, each set only where its column is null, a list status is the join of what it was and the new bounces and complaints among the events, judged on the tables before all of them; at most one entry is logged for each step up. |
| `MessageEvents.StatusOrderIrrelevant` | internal/repository/message_history_postgre.go:371-433 | Two sequences that report the same bounces, complaints and other marks of the same messages, in any order, with any repetitions and times, end every list membership at the same status. |
| `MessageEvents.SameUpdatesSameMarks` | internal/repository/message_history_postgre.go:371-433 | Permuting and repeating updates, of the same message too, changes nothing in what they report. |
| `MessageEvents.PlayMessages` | internal/repository/message_history_postgre.go:421-427 | Messages keep contact and list and gather exactly the marks they had and those reported; none comes or goes. |
| `MessageEvents.RowAfter` | internal/repository/message_history_postgre.go:409-433 | The row one update leaves, column by column; nothing changes when its column is set, the message unknown or the event without a column. |
| `Workspaces.Workspace.SetStatusesIfNotSet` | internal/repository/message_history_postgre.go:354-434 | The batch in place: one group per event, in whatever order the map is visited, until an unsupported event ends it. It succeeds exactly when every event is supported, and then every list status is the join above, whatever the order was. |
| `Workspaces.GroupByEvent` | internal/repository/message_history_postgre.go:374-378 | The map of groups holds for each event its updates in the order of the batch. |
| `Workspaces.Workspace.AppendEntry` | internal/service/automation_trigger_generator.go:343-350 | Inserting an entry in place: the automations that hear it one after the other, by name, then the queue trigger; together the specified cascade. |
| `Workspaces.Workspace.RunTrigger` | internal/service/automation_trigger_generator.go:258-312 | The trigger function of an automation in place: its condition, the lookups, the enrolment and its entry. |
| `Workspaces.Workspace.EnrollCustomer` | internal/database/schema/journey_tables.go:150-228 | The once-only record, then the guard, then the journey: admits exactly as specified and leaves exactly the specified record. |
| `Workspaces.Workspace.QueueForRecomputation` | internal/database/init.go:918-938 | Queues the email of an entry, unless its kind is one of the two segment kinds. |
| `Workspaces.Workspace.TrackContactChanges` | internal/database/init.go:688-743 | The trigger function in place: appends what the specification says and runs the queue trigger. |
| `Workspaces.Workspace.TrackMembershipChanges` | internal/database/init.go:745-806 | Soft delete first, then status transitions by kind, else nothing. |
| `Workspaces.Workspace.TrackMessageChanges` | internal/database/init.go:808-860 | Five engagement marks in order, each with its own kind, then one entry for the remaining columns if they changed. |
| `Workspaces.Workspace.UpdateListsOnStatusChange` | internal/database/init.go:941-971 | The two guarded updates, each with its own cascade, complaint first. |
| `Workspaces.Workspace.TrackEventChanges` | internal/database/init.go:993-1047 | One entry with the property difference, the two times and the goal differences. |
| `Workspaces.Workspace.UpdateMessage` | internal/database/init.go:1054-1062 | The whole cascade of a message update: entries, queue, statuses and their entries. |
| `Workspaces.Workspace.UpdateEvent` | internal/database/init.go:993-1047 | The whole cascade of an event update; properties that are not an object abort it. |
| `Workspaces.Workspace.InsertInbound` | internal/database/init.go:862-891 | An inbound event logs one entry of its kind and queues the recipient. |
| `Workspaces.Workspace.JoinSegment` | internal/repository/segment_postgres.go:298-324 | An upsert that logs an entry only when it inserts. |
| `Workspaces.Workspace.LeaveSegment` | internal/repository/segment_postgres.go:348-366 | Deletes the row of the email if there is one, and logs it. |
| `Workspaces.Workspace.ProcessQueue` | internal/service/contact_segment_queue_processor.go:73-178 | One pass of the worker on a claimed batch, with failing contacts, failing segment writes, cancellation, segments that do not load and a put-back that fails. |
| `SegmentWorker.QueueBalance` | internal/service/contact_segment_queue_processor.go:196-253 | With no outside writes, whatever claims and segment writes any number of workers interleave: the size of the queue is what it was, less the claims, plus the contacts their own segment writes put back through automations. |
| `SegmentWorker.QueueDrains` | internal/service/contact_segment_queue_processor.go:196-253 | On a run where no segment write puts its contact back, the queue only shrinks, and is empty after exactly as many claims as it had contacts. |
| `SegmentWorker.WithoutSegmentListenersNothingReturns` | internal/service/contact_segment_queue_processor.go:383-404 | That is every run as long as no live automation is on a segment. |
| `SegmentDrain.VerdictReached` | internal/service/contact_segment_queue_processor.go:383-404 | Under fixed answers, in any interleaving of workers, every membership written once is as the answers want it, and the others have not moved. |
| `SegmentDrain.ComebacksBounded` | internal/service/contact_segment_queue_processor.go:383-404 | Then the contacts put back through automations are at most as many as the written memberships that were wrong at the start. |
| `SegmentDrain.ClaimsBounded` | internal/service/contact_segment_queue_processor.go:196-253 | So the queue drains in spite of automations on segments: claims are at most the contacts queued and the memberships wrong at the start, and after that many the queue is empty. |
| `SegmentDrain.PassObeys` | internal/service/contact_segment_queue_processor.go:73-178 | The operations of a pass obey the one verdict its answers give, and a pass that puts nothing back is such a run. |
| `SegmentWorker.PassQueue` | internal/service/contact_segment_queue_processor.go:73-178 | After a pass the queue is what it was, less the batch, plus the contacts its segment writes returned and, unless putting back fails, those that failed or were not reached. |
| `SegmentWorker.PassDecides` | internal/service/contact_segment_queue_processor.go:308-407 | After a pass every contact it reached without failure is in exactly its matching active segments, but for segments whose write failed; when no active segment has stored SQL, the pass leaves every membership as it was. |
| `SegmentWorker.PassMovesNoOther` | internal/service/contact_segment_queue_processor.go:73-178 | A pass leaves the memberships of contacts outside the batch, not reached or failed as they were. |
| `SegmentPass.PassVerdict` | internal/service/contact_segment_queue_processor.go:73-178 | Segment by segment: a contact reached without failure is in it exactly when it is active, has stored SQL and matches, at its current version; inactive segments and failed writes leave the membership. |
| `SegmentPass.IdlePass` | internal/service/contact_segment_queue_processor.go:92-108 | A pass that cannot load the segments, or finds none active with stored SQL, leaves every membership as it was. |
| `SegmentPass.PutBackIff` | internal/service/contact_segment_queue_processor.go:101-176 | Put back are exactly the contacts of a batch whose segments did not load, and those not reached or failed while some segment is active. |
| `SegmentPass.QueuedAfterPass` | internal/service/contact_segment_queue_processor.go:73-178 | Who is on the queue after a pass. |
| `SegmentWorker.RewriteDecidesMemberships` | internal/service/contact_segment_queue_processor.go:383-404 | Rewriting one contact decides its memberships of these segments, leaves those whose write failed, and moves no other. |
| `Realtime.ClosedOnceInReverse` | internal/app/realtime_dependencies.go:121-128 | In every interleaving, components are closed at most once and in reverse build order. |
| `Realtime.LoopBounded` | internal/app/realtime_dependencies.go:136-155 | The select loop is entered at most twice. |
| `Realtime.WaitedMeansGone` | internal/app/realtime_dependencies.go:108-156 | When every component is launched or being launched as the first Shutdown enters, its leaving through the waited branch means that every Run goroutine has finished and was cancelled. |
| `Realtime.ClosedAfterCancel` | internal/app/realtime_dependencies.go:108-128 | In that case no component is closed before the run context is cancelled. |
| `Realtime.WaitedCanLeaveRunners` | internal/app/realtime_dependencies.go:64-156 | In any reachable state in which the first Shutdown enters: it can leave through the waited branch with a goroutine not ended exactly when some component is absent and not the one being launched. |
| `Realtime.FailureRecordedIff` | internal/app/realtime_dependencies.go:81-88 | By the time its goroutine is gone, the error of a component is on record exactly when its Run returned one, whatever else happens. |
| `Realtime.ShutdownEnds` | internal/app/realtime_dependencies.go:136-155 | Shutdown can leave by the wait after a single round. |
| `Realtime.ContextEndsLoop` | internal/app/realtime_dependencies.go:136-155 | Its context ends the loop of Shutdown from wherever it is. |
| `ServerStart.SignalledWaitersReturnTrue` | internal/app/app.go:2262-2281 | A waiter whose channel closes returns true, whichever generation of the channel it captured; false comes only through the context. |
| `ServerStart.SignalledWaitersReturn` | internal/app/app.go:2262-2281 | A waiter returns three of its own steps after its channel is closed, and at once when its context expires; until either happens it stays. |
| `ServerStart.NoPanicIffAtMostOneStarter` | internal/app/app.go:1798-1852 | No schedule closes a channel twice exactly when there are realtime dependencies (whose Start refuses a second call), the role does not serve HTTP, or at most one thread calls Start. |
| `ServerStart.SecondStartPanics` | internal/app/app.go:1834-1852 | Without realtime dependencies, under the HTTP role, two calls one after the other close a closed channel. |
| `ServerStart.AtMostOneStartCompletes` | internal/app/app.go:1798-1852 | With any number of callers, at most one gets past the signal unless the process has panicked. |
| `RequestDrain.CountersAlwaysExact` | internal/app/app.go:2508-2517 | In every interleaving both counters equal the number of requests between their own increment and decrement, hence are never negative. |
| `RequestDrain.AfterCancelOnlyDrains` | internal/app/app.go:2551-2567 | After cancellation no later arrival is admitted and the admitted, unfinished requests only shrink. |
| `RequestDrain.RequestsAreServed` | internal/app/app.go:2508-2567 | Before the cancellation a request that arrives can be served with both counters one up, and finish with them as before. |
| `RequestDrain.RequestsAreRejected` | internal/app/app.go:2551-2567 | After it, one that arrives is turned away at its first step and never counted. |
| `RequestDrain.WaitSeesAllButWindow` | internal/app/app.go:2139-2142 | A wait group at zero leaves in flight only requests between their check and their `Add`. |
| `RequestDrain.ServedAfterWaitIffInWindow` | internal/app/app.go:2139-2142 | After `Wait` has returned, a request can still be served exactly when one is in that window. |
| `RequestDrain.ServedAfterWaitHappens` | internal/app/app.go:2139-2142 | A schedule on which it is. |
| `Broadcast.StoredBroadcast.Validate` | internal/domain/broadcast.go:349-456 | The validation in the order of the source accepts exactly the valid broadcasts. |
| `Broadcast.StoredBroadcast.Update` | internal/domain/broadcast.go:583-707 | Accepted exactly when allowed and valid once patched; a rejection after the early checks leaves the patch written. |
| `Broadcast.StoredBroadcast.UpdateFeed` | internal/domain/broadcast.go:653-697 | The data feed merge keeps fetched data, except on the save that switches a live feed off. |
| `Broadcast.PatchIdempotent` | internal/domain/broadcast.go:583-707 | Applying a patch twice is applying it once, but for the time stamp, and the second time is accepted too. |
| `Broadcast.OmittedKeysKept` | internal/domain/broadcast.go:547-580 | Keys the body left out, or sent as null, keep their stored value. |
| `BroadcastOutcome.SettingsStored` | internal/domain/broadcast.go:583-656 | The name is the one of the request; schedule, test settings, UTM and metadata are those sent, or kept where none were; workspace, id and status stay. |
| `BroadcastOutcome.FiltersStored` | internal/domain/broadcast.go:618-624 | The same for segments and the exclusion of the unsubscribed. |
| `BroadcastOutcome.RecipientsStored` | internal/domain/broadcast.go:605-642 | List, audience, version, build and snapshot after the update, with what clears what spelled out. |
| `BroadcastOutcome.FeedStored` | internal/domain/broadcast.go:653-697 | Feed settings that were sent are stored and others kept; fetched data is dropped exactly when a live global feed is sent as disabled. |
| `BroadcastOutcome.FlagsRead` | internal/domain/broadcast.go:545-580 | A body decodes exactly when its audience is an object, null or absent; the flags of its own keys. |
| `BroadcastOutcome.RecipientFlagsRead` | internal/domain/broadcast.go:573-578 | The flags of the recipient keys of its audience. |
| `BroadcastOutcome.FilterFlagsRead` | internal/domain/broadcast.go:574-575 | The flags of its segments and of the exclusion. |
| `BroadcastOutcome.ValidIffNoReason` | internal/domain/broadcast.go:349-456 | A broadcast passes exactly when none of the reasons to refuse it applies. |
| `BroadcastOutcome.AcceptedIff` | internal/domain/broadcast.go:583-707 | An update is accepted exactly when it names the broadcast, which is draft, scheduled or paused, and what it leaves is not refused; one with an empty name never is. |
| `Broadcast.SnapshotKeepsSource` | internal/domain/broadcast.go:603-642 | Over every run of accepted updates from a valid broadcast, a snapshot run id that is still there is the original one and the recipient source was the same all along. |
| `Broadcast.FeedDataSurvivesIffNotSwitchedOff` | internal/domain/broadcast.go:665-697 | Over every run, fetched feed data survives exactly when no update switched a live feed off, and is gone otherwise. |
| `Slug.NormalizeSlug` | internal/domain/blog.go:752-776 | Ends on every input, at the maximal alphanumeric runs of the filtered text joined by single hyphens. |
| `Slug.ResultInGrammar` | internal/domain/blog.go:26 | The result is empty or in the slug grammar. |
| `Slug.SlugUnchanged` | internal/domain/blog.go:752-776 | A slug is its own normal form. |
| `Slug.FixedPointsAreSlugs` | internal/domain/blog.go:752-776 | The fixed points are exactly the slugs and the empty string, and normalising is idempotent. |
| `Slug.NormalizedInOnePass` | internal/domain/blog.go:752-776 | The five steps do what one pass over the lower-cased text does: keep letters and digits, pay one hyphen for any spaces, underscores and hyphens between them, drop the rest. |
| `Delivery.TerminalIffNoExit` | internal/domain/delivery.go:33-59 | Terminal statuses are exactly those with no allowed transition. |
| `Delivery.EnteredIff` | internal/domain/delivery.go:33-59 | The statuses each status is entered from. |
| `Delivery.SettledStaysSettled` | internal/domain/delivery.go:33-59 | Once accepted, unknown or terminal, a delivery is never queued or submitting again. |
| `Delivery.ResubmittedOnlyAfterTransientFailure` | internal/domain/delivery.go:33-59 | Every submitting visit but the last is followed at once by a transient failure. |
| `Delivery.OutcomeNeedsSubmission` | internal/domain/delivery.go:33-59 | Accepted, unknown and confirmed come only after queued and then submitting. |
| `Delivery.SubmissionsBounded` | internal/domain/delivery.go:33-59 | Submissions exceed transient failures by one at most. |
| `Delivery.RetriesUnbounded` | internal/domain/delivery.go:33-59 | Runs with any number of submissions exist. |
| `EffectKey.CanonicalDimensions` | internal/domain/delivery.go:101-127 | The loop succeeds exactly when all eight dimensions are non-empty, and names the first that is not. |
| `EffectKey.Key` | internal/domain/delivery.go:132-144 | The key is the digest of the JSON array of the dimensions. |
| `EffectKey.ArrayTextInjective` | internal/domain/delivery.go:137-143 | Two arrays of texts of one length have the same JSON text (section 7 of RFC 8259, as Go writes it) exactly when they agree unit by unit, stray bytes taken as equal. |
| `EffectKey.SamePreimageIffSameDimensions` | internal/domain/delivery.go:101-144 | Two inputs have the same preimage exactly when their dimensions agree; for well-formed text that is equality. |
| `EffectKey.PreimageText` | internal/domain/delivery.go:101-143 | The bytes that are hashed: the eight dimensions in their order, quoted and separated by commas, only the source type in lower case. |
| `EffectKey.BodyReads` | internal/domain/delivery.go:137-143 | A JSON reader reads the written text back, stray bytes as replacement characters. |
| `EffectKey.EscapedIff` | internal/domain/delivery.go:137-143 | Exactly quotes, backslashes, control characters, <, >, & and the two line separators are escaped. |
| `EffectKey.DeterminedIffWellFormed` | internal/domain/delivery.go:137-143 | The text of a list of strings determines the list exactly when they are well-formed UTF-8. |
| `EffectKey.PinnedDownIffWellFormed` | internal/domain/delivery.go:92-143 | The preimage of an input determines its dimensions among all inputs exactly when they are well-formed UTF-8; otherwise another input collides with it. |
| `Campaign.Validate` | internal/domain/campaign.go:92-126 | Accepts exactly the versions that satisfy the rules, with the total of the weights taken in 64 bits. |
| `Campaign.AssignmentNeverFails` | internal/domain/campaign.go:135-149 | For a validated version every position has a variant. |
| `Campaign.AssignVariant` | internal/domain/campaign.go:135-149 | Fails only when validation does, and returns the variant whose running total first exceeds the position. |
| `Campaign.ValidIffNoReason` | internal/domain/campaign.go:92-126 | A version is accepted exactly when none of the reasons to refuse it applies; the weights are refused exactly when their true sum is not 10,000 modulo 2^64. |
| `Campaign.FirstBeyond` | internal/domain/campaign.go:142-147 | The winner is the first variant whose running total lies beyond the position. |
| `Campaign.StretchOfVariant` | internal/domain/campaign.go:135-149 | Without wrapping, a variant gets exactly the hashes whose remainder by 10,000 lies in its stretch of the weights laid end to end. |
| `Campaign.ShareIsWeight` | internal/domain/campaign.go:135-149 | For a validated version whose weights add up to 10,000 without wrapping, exactly its weight of the 10,000 positions goes to each variant; ExactSharesIffNoWrap shows the guard to be needed. |
| `Campaign.ExactSharesIffNoWrap` | internal/domain/campaign.go:108-124 | For a validated version the shares equal the weights exactly when the true sum of the weights is 10,000. |
| `Campaign.WrappedWeightsAccepted` | internal/domain/campaign.go:92-149 | A whole version whose weights come to 2^64 + 10,000 is accepted, and its first variant gets all 10,000 positions, the others none. |
| `Campaign.HashBias` | internal/domain/campaign.go:139-141 | For a validated version: every variant of weight w gets between w*q and w*(q+1) of the 2^64 hash values, q = floor(2^64/10000), exactly when the true sum of the weights is 10,000; otherwise some variant gets fewer than w*q. |
| `Scopes.ParseRootEmails` | config/root_email.go:14-30 | The first occurrences of the tokens, in order. |
| `Scopes.EmailsShape` | config/root_email.go:14-30 | The parsed list repeats nothing, holds exactly the tokens of the text, and keeps the order of their first occurrence. |
| `Scopes.ParseScopes` | config/oidc.go:98-109 | openid, then the other tokens in order. |
| `Scopes.FieldsStep` | config/root_email.go:20-23 | A token ends at the first comma, semicolon or space and at nothing else; such characters in front are skipped. |
| `Scopes.NormalizeScopesForStorage` | config/oidc.go:89-94 | The parsed scopes joined by spaces; the default when there is no token. |
| `Scopes.StoredText` | config/oidc.go:82-94 | A text with nothing but separators is stored as the full default, any other as openid and its further tokens. |
| `Scopes.StorageRoundTrip` | config/oidc.go:89-109 | Parsing what is stored gives what parsing the text gives, or the default list; the storage form is a fixed point. |
| `Scopes.ScopesShape` | config/oidc.go:96-109 | The list starts with openid, has no repetition and holds exactly the tokens and openid. |
| `Scopes.ScopesInOrder` | config/oidc.go:96-109 | The tokens after openid stand in the order of their first occurrence. |

## Left out

- Broadcast.StoredBroadcast.UpdateFeed: copies the feed settings; that the stored broadcast and the request then share one object is not modelled.
- Broadcast.OmittedKeysKept: JSON keys are matched by their exact name; Go's case-insensitive field matching is not modelled.
- UpsertRequest.UpsertInput.Validate: what a rejected input looks like is not stated, as callers drop it.
- UpsertRequest.CanonicalForm: the final encoding and SHA-256 are not modelled; equal forms have equal hashes.
- CustomerNumber.Generate: takes the calendar fields in the UTC+8 zone; the conversion from an instant is library code.
- Timeline.CascadesEnd: the webhook triggers of the `schema` package and the realtime bridge also fire on these tables, but write none of them; they are not part of this model. What an enrolment writes to the journey tables counts as part of its step.
- Triggers.SettledEnroll: which customer an address stands for is an input (`owners`), which hides the exact and the case-insensitive lookup and merged customers; entries are taken to carry a new origin event, as the column default gives them, so retries of deferred entries and replays are not modelled; an error raised inside an enrolment, which aborts the whole statement, is not modelled either.
- Automations.SegmentEntryHeardIff: list, segment and tag events name their list, segment and tag, and custom events their name, as validation demands of automations; conditions are any predicate of the tables and the address.
- Workspaces.Workspace.UpdateMessage: a statement over many rows is modelled row by row; column widths and the text form of numbers and times in `changes` are not modelled.
- Workspaces.Workspace.SetStatusesIfNotSet: a database error, which ends the batch with the groups before it written, is not modelled.
- Workspaces.Workspace.JoinSegment: the columns `customer_id` and `computed_at` of a membership are not modelled.
- Workspaces.Workspace.LeaveSegment: removes the row of the email. The removal by customer id is not modelled, in either direction: rows under another email of the same customer are removed too, and a row of the email under another customer id stays.
- SegmentWorker.PassDecides: reads removal the same way, by email.
- Workspaces.Workspace.ProcessQueue: the batch and the outcome of each query and write are inputs; a contact that fails has written nothing, which leaves out a panic halfway through its writes.
- Scopes.ParseScopes: a text that is not valid UTF-8 is not modelled, nor is it in any module but `EffectKey`.
- Locking inside the Go maps, channels and wait groups: each operation on them is one atomic step.
- Repository and service interfaces (journey claims, delivery ledger, receipts, audience builds): no body to model.
- Deleting contacts, merging customers, and the purge of timelines: plain statements with no algorithm.
- Masking and fingerprints of identities, list-membership batch requests, cursors: easy members only.
- Configuration loading, provider settings, encryption, feed URL filtering, analytics tables, rendering, the console.
