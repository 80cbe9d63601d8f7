# Time-slot planner, modelled in Dafny

The planner divides a day into 48 half-hour slots, from `00:00` to `23:30`.
The user drags an activity onto a free slot, picks a duration in whole
half-hours, and the server stores a *session*. A session is an activity, a
date, a start and end time and a duration. Activities belong to coloured
categories. This project models the core of that system:

* **Slot arithmetic** (`TimeSlots`): time strings ↔ slot indices, the
  slot list, the span of a duration, end times (wrapping past midnight)
  and the longest duration that still fits in the day.
* **Request validation** (`Schemas`): the shared schemas. These are the
  time pattern that admits exactly the 48 slot times, the date shape, the
  colour, name and text limits, and the create/update bodies. Only the
  session-create schema requires start < end.
* **The server routes** (`Store`, `SessionRoutes`, `ActivityRoutes`,
  `CategoryRoutes`): a database object `Store.Db` holding three tables
  as maps from id to row. The id SQLite gives an inserted row is a
  parameter of each create handler: any positive id not yet in the table.
  * Each route handler is a method that changes the database and answers
    a `Reply`.
  * Every handler preserves four invariants:
    * ids match their keys;
    * references resolve;
    * stored rows pass the schemas;
    * the single user's sessions do not overlap.
  * A refused request leaves the database unchanged.
  * The overlap query (`checkOverlap`) is modelled with its three
    string-comparison clauses exactly as its parameters bind them.
    * Its third clause receives the new start twice.
    * So for a well-ordered stored row it never holds.
    * The query still amounts to half-open interval overlap, which is
      proved.
    * A row an update has left inverted can still block through that
      clause.
* **The planner screen** (`SlotView`, `SlotGrid`, `SessionModal`,
  `ActivitySidebar`):
  * the slot map built from a day's sessions;
  * the props, rendering and drop target of each slot row. The grid
    spreads each slot's `index` into the row, but the row reads
    `slotIndex`. So every row's index is `undefined`, and all 48 drop
    targets share the id `slot-undefined`;
  * the drag/click/close state of the grid;
  * the scroll target;
  * the modal's duration options, payloads and error texts;
  * the sidebar's search filter.
* **The activities page** (`ActivitiesPage`): grouping activities by
  category name into a map with first-appearance key order, the category
  filter, and the create/edit form. The grouping object is a plain `{}`,
  so a category named like an inherited property (`constructor`,
  `toString`, …) makes the grouping throw a `TypeError`.

String comparison is the byte-wise order JavaScript and SQLite use
(`Text.StrLt`). Sorting (`ORDER BY`) is an insertion sort on a pair of
string keys (`Ordering.Sort`).

## Model

| member | source | states |
|---|---|---|
| TimeSlots.GenerateTimeSlots | client/src/utils/timeSlots.ts:10-21 | exactly 48 slots; slot i carries index i and the time `HH:MM` of i half-hours |
| TimeSlots.SlotTimeShape | client/src/utils/timeSlots.ts:30-34 | the time of slot i is aligned, with hour i/2 and minute 0 or 30 |
| TimeSlots.ClockString | client/src/utils/timeSlots.ts:33 | two zero-padded numbers joined by `:` form a 5-character clock string whose hour and minute read back |
| TimeSlots.SlotIndexRoundTrip | client/src/utils/timeSlots.ts:24-34 | `timeToSlotIndex(slotIndexToTime(i)) == i` for every slot |
| TimeSlots.TimeRoundTrip | client/src/utils/timeSlots.ts:24-34 | every aligned time maps to a slot below 48 whose time is that string again |
| TimeSlots.OffHalfHourMinute | client/src/utils/timeSlots.ts:24-27 | a minute other than 30 adds nothing to the slot index (index = 2·hour) |
| TimeSlots.QuarterPastNine | client/src/utils/timeSlots.ts:24-27 | `09:15` falls into slot 18, the `09:00` slot |
| TimeSlots.CalculateSlotSpan | client/src/utils/timeSlots.ts:37-39 | span·30 equals the duration; a positive duration spans at least one slot |
| TimeSlots.SnapToSlot | client/src/utils/timeSlots.ts:42-49 | the current slot is in 0..47 and its half-hour contains the given hour and minute |
| TimeSlots.AlignedMinutes | client/src/utils/timeSlots.ts:24-27 | an aligned time's minutes since midnight are 30 × its slot index |
| TimeSlots.MaxDurationOfAligned | client/src/utils/timeSlots.ts:64-69 | from an aligned start the maximum duration is 30 × the slots left in the day, between 30 and 1440 |
| TimeSlots.MaxDurationAtLastSlot | client/src/utils/timeSlots.ts:64-69 | from `23:30` only 30 minutes are left |
| TimeSlots.MinutesToTimeOfSlot | client/src/utils/timeSlots.ts:52-56 | formatting 30·k minutes gives the time of slot k |
| TimeSlots.EndIsSlotTime | client/src/utils/timeSlots.ts:52-56 | a whole-slot duration shorter than the maximum ends at the time of slot start + duration/30, inside the day |
| TimeSlots.EndMinutes | client/src/utils/timeSlots.ts:52-56 | the end's minutes modulo a day are 30 × (start slot + duration/30) |
| TimeSlots.EndTimeSlot | client/src/utils/timeSlots.ts:52-56 | such an end time is aligned and its slot is the start slot plus the span |
| TimeSlots.EndTimeAtMaxDuration | client/src/utils/timeSlots.ts:52-69 | adding the maximum duration wraps to `00:00` |
| Text.DecimalRoundTrip | client/src/utils/timeSlots.ts:33 | the decimal string of n reads back as n |
| Text.PadStart2 | client/src/utils/timeSlots.ts:33 | `padStart(2,'0')`: length max(2,\|s\|), s at the end, zeros before it |
| Text.Pad2Digits | client/src/utils/timeSlots.ts:33 | a number below 100 pads to its two decimal digits |
| Text.StrLtTotal | server/src/routes/sessions.ts:23-25 | string `<` is total: equal, below or above |
| Text.StrLtTransitive | server/src/routes/sessions.ts:23-25 | string `<` is transitive |
| Text.LowerEqualIgnoringCase | client/src/features/planner/ActivitySidebar.tsx:15 | two strings lower-case to the same string iff they have equal length and differ only in ASCII letter case |
| Text.LowerLeavesNoCapital | client/src/features/planner/ActivitySidebar.tsx:15 | no capital letter remains after `toLowerCase`, so applying it twice is the same as once |
| Text.ContainsEmpty | client/src/features/planner/ActivitySidebar.tsx:15 | every string includes the empty string |
| Schemas.TimeIsAligned | shared/src/schemas.ts:4 | a string passing the time pattern is an aligned clock time |
| Schemas.TimePatternIsSlotTimes | shared/src/schemas.ts:4 | the time pattern accepts exactly the 48 slot times |
| Schemas.SlotTimeIsTime | shared/src/schemas.ts:4 | every slot time passes the pattern |
| Schemas.AlignedIsTime | shared/src/schemas.ts:4 | every aligned clock time passes the pattern |
| Schemas.TimeOrderIsSlotOrder | shared/src/schemas.ts:4 | between pattern times, string `<` is slot-index `<` |
| Schemas.CreateSessionIsChronological | shared/src/schemas.ts:66-78 | a valid create body starts in an earlier slot than it ends |
| Schemas.CreateSessionRejectsUnordered | shared/src/schemas.ts:66-78 | a body whose end slot is not after its start slot fails the create schema |
| Schemas.UpdateSessionHasNoOrderRule | shared/src/schemas.ts:80-84 | the update schema accepts start `10:00` with end `09:00` |
| Schemas.DurationNotTiedToTimes | shared/src/schemas.ts:53-78 | a create body for 09:00–11:00 with duration 30 passes |
| Schemas.DatePatternShapeOnly | shared/src/schemas.ts:5 | the date pattern accepts `2024-13-45` |
| Schemas.UpdateCategoryIsPartial | shared/src/schemas.ts:17-27 | the create schema is the update schema plus name and colour present |
| Schemas.UpdateActivityIsPartial | shared/src/schemas.ts:40-50 | the create schema is the update schema plus name and category present |
| Schemas.UpdateSessionIsPartial | shared/src/schemas.ts:53-84 | the create fields are the update fields with all five required present; create adds start < end |
| Store.OrNull | server/src/routes/sessions.ts:164 | `x \|\| null` keeps a present non-empty text and stores null otherwise |
| Store.OrNullKeepsLongText | server/src/routes/sessions.ts:164 | the stored text still respects the 1000-character limit |
| Store.Db.constructor | server/src/db/init.ts:13-20 | an empty database: no rows, all invariants hold |
| Ordering.Sort | server/src/routes/sessions.ts:71 | the sorted list is a permutation of its input |
| Ordering.SortSorted | server/src/routes/sessions.ts:71 | the sorted list is ordered by the (first, second) key |
| Ordering.InsertSorted | server/src/routes/sessions.ts:71 | inserting into an ordered list keeps it ordered |
| Ordering.KeyLeTotal | server/src/routes/activities.ts:28 | the two-column order is total |
| Ordering.KeyLeTransitive | server/src/routes/activities.ts:28 | the two-column order is transitive |
| SessionRoutes.ThirdClauseNeedsInvertedRow | server/src/routes/sessions.ts:26-36 | the third clause, bound to the new start twice, only holds for a row whose start is not before its end |
| SessionRoutes.InvertedRowCanBlock | server/src/routes/sessions.ts:22-36 | an inverted row (10:00–09:00) blocks 09:00–09:30 although it starts after that session ends |
| SessionRoutes.OverlapClauseIsHalfOpen | server/src/routes/sessions.ts:22-36 | for well-ordered intervals the query's test is exactly half-open overlap |
| SessionRoutes.OverlapClauseInSlots | server/src/routes/sessions.ts:22-27 | for pattern times the test is overlap of slot-index ranges |
| SessionRoutes.OverlapExamples | server/src/routes/sessions.ts:22-27 | back-to-back 09–10 and 10–11 do not clash; 09:30–10:30 clashes with 09–10 |
| SessionRoutes.NoExcludeSkipsNothing | server/src/routes/sessions.ts:21-33 | with no id to exclude no stored row is skipped |
| SessionRoutes.ExcludeDropsOwnRow | server/src/routes/sessions.ts:21-33 | excluding an id is checking the table without that row |
| SessionRoutes.UnblockedNoConflict | server/src/routes/sessions.ts:17-27 | a row the query does not select does not conflict with the written row |
| SessionRoutes.WriteKeepsNoOverlap | server/src/routes/sessions.ts:140-166 | writing a row the query lets through keeps the table overlap-free |
| SessionRoutes.ConflictInSlots | server/src/routes/sessions.ts:17-27 | for stored rows, conflict is same user and date with overlapping slot ranges |
| SessionRoutes.ListSessions | server/src/routes/sessions.ts:43-83 | the rows are sorted by (date, start) and are a permutation of the joined, filtered rows |
| SessionRoutes.ListingIsFiltered | server/src/routes/sessions.ts:55-69 | every listed row is a stored session of the default user passing the date filter |
| SessionRoutes.ListingIsComplete | server/src/routes/sessions.ts:55-69 | every stored session of the default user passing the date filter is listed |
| SessionRoutes.NewSessionIsValid | server/src/routes/sessions.ts:155-166 | the inserted row passes the row rules and starts in an earlier slot than it ends |
| SessionRoutes.PostSession | server/src/routes/sessions.ts:120-197 | 400 on a bad body, 400 on an unknown activity, 409 on overlap, else 201 with the id SQLite gave the row and only that row added; invariants kept |
| SessionRoutes.SessionUpdates | server/src/routes/sessions.ts:253-279 | the SET list is empty exactly when no column is given, and applying it yields the patched row |
| SessionRoutes.UpdatesApply | server/src/routes/sessions.ts:253-279 | applying the pushed assignments in order yields the patched row |
| SessionRoutes.AssignAllConcat | server/src/routes/sessions.ts:287-290 | applying a + b is applying a, then b |
| SessionRoutes.MergedIsWritten | server/src/routes/sessions.ts:232-234 | the merged date/start/end the overlap check uses are the ones written |
| SessionRoutes.PatchedIsValid | server/src/routes/sessions.ts:253-290 | patching a valid row with a valid update keeps it valid |
| SessionRoutes.PatchCanInvertSession | server/src/routes/sessions.ts:200-321 | a valid update can leave a stored session ending before it starts |
| SessionRoutes.PutSession | server/src/routes/sessions.ts:200-321 | 400, 404, 400 unknown activity, 409 overlap against the merged times, 400 nothing to update, else only that row patched; invariants kept |
| SessionRoutes.WriteSession | server/src/routes/sessions.ts:287-290 | replaces one session row and keeps the invariants the new row satisfies |
| SessionRoutes.DeleteSession | server/src/routes/sessions.ts:324-345 | 404 when missing, else 204 and only that row removed; invariants kept |
| ActivityRoutes.ActivityInUseReadsBack | server/src/routes/activities.ts:221-226 | the 409 detail is "This activity has ", digits, " session(s)"; the digits read back as the count, so different counts give different answers |
| ActivityRoutes.ListActivities | server/src/routes/activities.ts:9-40 | sorted by (category name, name), a permutation of the joined, filtered rows |
| ActivityRoutes.ActivityListingIsFiltered | server/src/routes/activities.ts:15-28 | every listed activity is stored, belongs to the user or nobody, matches the category filter and carries its category's name and colour |
| ActivityRoutes.ActivityListingIsComplete | server/src/routes/activities.ts:15-28 | every such stored activity is listed |
| ActivityRoutes.PostActivity | server/src/routes/activities.ts:71-121 | 400 on a bad body, 400 on an unknown category, else 201 with the id SQLite gave the row and only that row added |
| ActivityRoutes.ActivityUpdates | server/src/routes/activities.ts:150-166 | the SET list is empty exactly when no column is given, and applying it yields the patched row |
| ActivityRoutes.AssignAllConcat | server/src/routes/activities.ts:173-176 | applying a + b is applying a, then b |
| ActivityRoutes.UserIdOnlyPatchWritesNothing | server/src/routes/activities.ts:150-169 | a body with only `user_id` validates but has nothing to update |
| ActivityRoutes.PutActivity | server/src/routes/activities.ts:124-201 | 400, 404, 400 unknown category, 400 nothing to update, else only that row patched |
| ActivityRoutes.DeleteActivity | server/src/routes/activities.ts:204-238 | 404 when missing, 409 with the count while sessions use it, else 204 and only that row removed |
| ActivityRoutes.InUseCountsSessions | server/src/routes/activities.ts:216-226 | one session referring to the activity makes the count positive |
| CategoryRoutes.CategoryInUseReadsBack | server/src/routes/categories.ts:180-185 | the 409 detail is "This category has ", digits, " activity(ies)"; the digits read back as the count, so different counts give different answers |
| CategoryRoutes.ListCategories | server/src/routes/categories.ts:9-27 | sorted by name, a permutation of the user's and shared categories |
| CategoryRoutes.CategoryListingMembers | server/src/routes/categories.ts:14-17 | a category is listed iff it is stored and belongs to the user or nobody |
| CategoryRoutes.PostCategory | server/src/routes/categories.ts:55-95 | 400 on a bad body, 409 when the store refuses the name, else 201 with the id SQLite gave the row and only that row added |
| CategoryRoutes.CategoryUpdates | server/src/routes/categories.ts:110-121 | the SET list is empty exactly when neither column is given, and applying it yields the patched row |
| CategoryRoutes.UserIdOnlyPatchWritesNothing | server/src/routes/categories.ts:110-125 | a body with only `user_id` validates but has nothing to update |
| CategoryRoutes.PutCategory | server/src/routes/categories.ts:98-160 | 400, 404, 400 nothing to update, 409 name taken, else only that row patched |
| CategoryRoutes.DeleteCategory | server/src/routes/categories.ts:163-197 | 404 when missing, 409 with the count while activities use it, else 204 and only that row removed |
| SlotView.DroppableIdentifiesIndex | client/src/features/planner/TimeSlot.tsx:26-36 | two drop targets have the same id iff their rows received the same `slotIndex` (absent counts as one value, written `undefined`) |
| SlotView.Render | client/src/features/planner/TimeSlot.tsx:38-69 | continuation iff occupied without a session; a block iff a session with non-zero span; otherwise a free row marked not-allowed when occupied |
| SlotGrid.SlotMapOf | client/src/features/planner/TimeSlotGrid.tsx:34-53 | the slot map has 48 cells |
| SlotGrid.BuildSlotMap | client/src/features/planner/TimeSlotGrid.tsx:34-53 | the filled array is the slot map of the sessions |
| SlotGrid.FreeIffUncovered | client/src/features/planner/TimeSlotGrid.tsx:37-50 | a cell is free iff no session covers it |
| SlotGrid.LastCoverDecides | client/src/features/planner/TimeSlotGrid.tsx:37-50 | the last session covering a cell decides it: its start cell or a continuation |
| SlotGrid.StartCellIsListed | client/src/features/planner/TimeSlotGrid.tsx:37-50 | a start cell holds a listed session that starts there |
| SlotGrid.LastCovered | client/src/features/planner/TimeSlotGrid.tsx:37-50 | a covered cell is not free |
| SlotGrid.DisjointBlocks | client/src/features/planner/TimeSlotGrid.tsx:37-50 | without overlapping spans, each covered cell belongs to its one session |
| SlotGrid.DisjointStartCells | client/src/features/planner/TimeSlotGrid.tsx:37-50 | without overlapping spans, a cell starts session x iff x is listed and starts there |
| SlotGrid.DisjointOrderIrrelevant | client/src/features/planner/TimeSlotGrid.tsx:37-50 | without overlapping spans, the map does not depend on list order |
| SlotGrid.ApartWhenNoConflict | client/src/features/planner/TimeSlotGrid.tsx:37-50 | two non-conflicting sessions whose durations match their times occupy disjoint slots |
| SlotGrid.ConflictFreeDayIsSlotDisjoint | client/src/features/planner/TimeSlotGrid.tsx:37-50 | a conflict-free day of such sessions has disjoint spans |
| SlotGrid.InconsistentRowsDependOnOrder | client/src/features/planner/TimeSlotGrid.tsx:37-50 | when a duration disagrees with its times, list order changes what a cell shows |
| SlotGrid.SlotMapPlaceable | client/src/features/planner/TimeSlotGrid.tsx:34-53 | every start cell holds a placeable session |
| SlotGrid.GridProps | client/src/features/planner/TimeSlotGrid.tsx:164-178 | one row of props per slot, with the slot's time and no `slotIndex` |
| SlotGrid.RowViews | client/src/features/planner/TimeSlotGrid.tsx:164-178 | a row has its slot's time and no `slotIndex`; it shows a free slot, a continuation or the session block with its span, and is disabled iff its cell is not free |
| SlotGrid.RowsShareOneDropId | client/src/features/planner/TimeSlotGrid.tsx:170-178 | every one of the 48 drop targets has the id `slot-undefined` and drop data without an index, so all share one id |
| SlotGrid.DropOnRow | client/src/features/planner/TimeSlotGrid.tsx:88-109 | a drop onto a row is accepted iff its cell is free, at that row's time |
| SlotGrid.Planner.constructor | client/src/features/planner/TimeSlotGrid.tsx:22-26 | modal closed in create mode, nothing selected or dragged |
| SlotGrid.Planner.HandleDragStart | client/src/features/planner/TimeSlotGrid.tsx:83-86 | records the dragged activity and nothing else |
| SlotGrid.Planner.HandleDragEnd | client/src/features/planner/TimeSlotGrid.tsx:88-109 | clears the drag; an accepted drop opens the create modal with the activity and the slot's date and time; otherwise nothing else changes |
| SlotGrid.Planner.HandleSessionClick | client/src/features/planner/TimeSlotGrid.tsx:112-116 | opens the edit modal on that session |
| SlotGrid.Planner.CloseModal | client/src/features/planner/TimeSlotGrid.tsx:216 | closes the modal and keeps the rest |
| SlotGrid.ScrollOnToday | client/src/features/planner/TimeSlotGrid.tsx:56-80 | today scrolls two slots above the current one (at least 0), within 45 rows of 64 px |
| SlotGrid.DefaultScrollIsSixAM | client/src/features/planner/TimeSlotGrid.tsx:56-80 | another day without sessions scrolls to slot 12, `06:00` |
| SlotGrid.ScrollToEarliest | client/src/features/planner/TimeSlotGrid.tsx:56-80 | another day scrolls four slots above its earliest session (at least 0) |
| SessionModal.AllDurationsAreSlotMultiples | client/src/features/planner/SessionModal.tsx:96 | every listed duration is a positive multiple of 30 up to 360 |
| SessionModal.DurationOptionsSound | client/src/features/planner/SessionModal.tsx:95-97 | every offered duration is listed and at most the maximum |
| SessionModal.DurationOptionsComplete | client/src/features/planner/SessionModal.tsx:95-97 | every listed duration up to the maximum is offered |
| SessionModal.NoStartMaximum | client/src/features/planner/SessionModal.tsx:95 | without a start time the maximum is 360 |
| SessionModal.NoStartOffersAll | client/src/features/planner/SessionModal.tsx:95-97 | without a start time every duration is offered |
| SessionModal.LastSlotOffersOnlyHalfHour | client/src/features/planner/SessionModal.tsx:95-97 | from `23:30` only 30 minutes is offered |
| SessionModal.EndTimeIsLaterSlot | client/src/features/planner/SessionModal.tsx:50-60 | a duration below the maximum gives a pattern end time after the start, span slots later |
| SessionModal.CreatePayloadValid | client/src/features/planner/SessionModal.tsx:49-58 | such a create payload passes the create schema |
| SessionModal.CreatePayloadAccepted | client/src/features/planner/SessionModal.tsx:49-58 | an offered duration below the maximum gives an accepted payload |
| SessionModal.CreatePayloadAtMaxRejected | client/src/features/planner/SessionModal.tsx:49-58 | a payload whose duration equals the maximum ends at `00:00` and fails the create schema |
| SessionModal.LastSlotUnbookable | client/src/features/planner/SessionModal.tsx:95-97 | nothing offered at `23:30` can be created |
| SessionModal.EditKeepsPlacement | client/src/features/planner/SessionModal.tsx:59-68 | an edit changes only duration, end time and (non-empty) notes |
| SessionModal.ErrorText | client/src/features/planner/SessionModal.tsx:71-77 | the overlap text iff the message contains "overlap", else the generic text |
| SessionModal.MentionsOverlap | server/src/routes/sessions.ts:150 | "Session overlap detected" contains "overlap" |
| SessionModal.OverlapReplyShowsOverlapText | client/src/lib/api.ts:38 | the thrown 409 overlap message shows the overlap text |
| SessionModal.OtherRefusalsShowGenericText | client/src/lib/api.ts:38 | unknown activity, validation, not found and nothing-to-update show the generic text |
| SessionModal.ModalState.constructor | client/src/features/planner/SessionModal.tsx:21-24 | duration 30, empty notes, no error |
| SessionModal.ModalState.Initialize | client/src/features/planner/SessionModal.tsx:31-40 | edit loads the session's duration and notes; create resets to 30 and empty; the error clears |
| SessionModal.ModalState.Submit | client/src/features/planner/SessionModal.tsx:44-78 | sends the create or update payload; success closes; a thrown error stays open with its text |
| SessionModal.ModalState.Delete | client/src/features/planner/SessionModal.tsx:80-88 | deletes the session by id and date; success closes; failure shows the delete text |
| ActivitySidebar.FilterActivitiesMembers | client/src/features/planner/ActivitySidebar.tsx:13-19 | listed iff loaded, the lower-cased name contains the lower-cased term, and the category filter is off or matches |
| ActivitySidebar.FilterActivitiesKeepsOrder | client/src/features/planner/ActivitySidebar.tsx:13-19 | the list is an order-preserving subsequence |
| ActivitySidebar.EmptySearchListsAll | client/src/features/planner/ActivitySidebar.tsx:13-19 | an empty search without a category lists everything in order |
| ActivitySidebar.NotLoadedListsNothing | client/src/features/planner/ActivitySidebar.tsx:18 | nothing is listed before the activities load |
| ActivitySidebar.SearchIgnoresCase | client/src/features/planner/ActivitySidebar.tsx:15 | "Run" finds "Morning run" |
| ActivitiesPage.GroupKey | client/src/pages/ActivitiesPage.tsx:91 | the group key is never empty and is the category name when there is one |
| ActivitiesPage.KeysOfMembers | client/src/pages/ActivitiesPage.tsx:90-100 | a key is listed iff some activity has it |
| ActivitiesPage.KeysOfDistinct | client/src/pages/ActivitiesPage.tsx:90-100 | each key is listed once |
| ActivitiesPage.GroupsMapCorrect | client/src/pages/ActivitiesPage.tsx:90-100 | each group holds exactly its activities in list order, is non-empty, takes its first activity's colour, and group sizes sum to the list length |
| ActivitiesPage.GroupsMapKeys | client/src/pages/ActivitiesPage.tsx:90-100 | a key has a group iff it is listed |
| ActivitiesPage.GroupActivities | client/src/pages/ActivitiesPage.tsx:90-100 | throws a `TypeError` iff some activity's key is an inherited property of a plain object; otherwise the loop's keys and groups are the first-appearance keys and the grouping above |
| ActivitiesPage.InheritedNameThrows | client/src/pages/ActivitiesPage.tsx:90-100 | a list with a category named `constructor` throws, while the same list without it groups |
| ActivitiesPage.EachActivityInOneGroup | client/src/pages/ActivitiesPage.tsx:90-100 | every activity is in its own key's group and in no other |
| ActivitiesPage.FilterByCategoryMembers | client/src/pages/ActivitiesPage.tsx:103-105 | with a category chosen, listed iff in that category, in order |
| ActivitiesPage.ActivityForm.constructor | client/src/pages/ActivitiesPage.tsx:19-26 | a closed, empty form |
| ActivitiesPage.ActivityForm.OpenForm | client/src/pages/ActivitiesPage.tsx:75-80 | opens the form and preselects the first category when there is one |
| ActivitiesPage.ActivityForm.Cancel | client/src/pages/ActivitiesPage.tsx:69-73 | closes and empties the form |
| ActivitiesPage.ActivityForm.Edit | client/src/pages/ActivitiesPage.tsx:49-57 | opens the form on the activity with its fields, a missing description as "" |
| ActivitiesPage.ActivityForm.Submit | client/src/pages/ActivitiesPage.tsx:28-47 | sends update when editing, create otherwise, with the form fields; success resets; failure keeps the form |
| ActivitiesPage.ClearedDescriptionStored | client/src/pages/ActivitiesPage.tsx:28-47 | an empty description is stored as null on create but as "" on update |

## Left out

- I/O and storage:
  - The database is in-memory maps. SQLite, Express, the HTTP layer and react-query are not part of this model.
  - Reading `schema.sql` and seeding are left out; the file is not part of this model.
  - Each handler runs atomically. The gap between the overlap query and the insert, where two requests could interleave, is left out.
- Error paths:
  - The 500 answers on thrown store errors are left out.
  - Zod's list of issues is reduced to one validation failure.
- `SessionRoutes.PostSession`, `ActivityRoutes.PostActivity`, `CategoryRoutes.PostCategory`: the new row's id is any positive id not yet in the table. Which one SQLite picks (one past the largest rowid, so a deleted id can come back) is not modelled.
- `CategoryRoutes.PostCategory`: the UNIQUE constraint on category names is a boolean the store supplies (`storeRejects`), not a search of the table.
- `CategoryRoutes.PutCategory`: the same holds for the UNIQUE constraint on renames.
- JSON values:
  - Request bodies arrive already typed: absent keys, null and integers.
  - Non-integer numbers, wrong JSON types and Zod coercions are left out.
- Times and text:
  - Time strings are read only in their 5-character `HH:MM` form. `Number()` and `split` on other strings are left out.
  - Lower-casing covers ASCII letters only.
  - Strings are sequences of characters, with no UTF-16 surrogate handling.
- Clock and dates:
  - The wall clock is a parameter: `getCurrentSlotIndex` receives hour and minute.
  - `isToday`, date labels, `formatDateForAPI` and daylight-saving shifts are left out.
  - The current-time indicator is left out.
- Rendering and drag-and-drop:
  - Styling, the smooth scroll and hover states are left out.
  - dnd-kit internals are reduced to the drop data the grid reads.
- `SlotGrid.PropsOf`: every row lacks `slotIndex`, so all 48 drop targets share the id `slot-undefined`. How dnd-kit resolves 48 droppables registered under one id is not modelled. So the model does not say which row a drop lands on; `SlotGrid.DropOnRow` describes a drop whose data is that of the row it is reported on. A distinct index per row, which the code evidently intends, is not what the model gives.
  - The "scroll to now" and "scroll to first session" buttons compute the same targets as the effect (`ScrollTarget`). Only the effect's target is modelled.
- Activities page:
  - Confirmation dialogs, alerts and console logging are left out.
  - The page's delete handler is left out; it only calls the delete route modelled in `ActivityRoutes.DeleteActivity`.
  - Of the keys a plain object inherits, only those of `Object.prototype` are modelled (`ActivitiesPage.InheritedKeys`).
  - `Object.entries` puts integer-like keys first in numeric order. The model gives keys in first-appearance order, so category names that look like integers are not modelled.
- Left out entirely: timestamps (`created_at`/`updated_at`), the single-row GET routes and the analytics routes.
- `TimeSlots.CalculateSlotSpan`: requires a whole number of slots. JavaScript would give a fraction; stored durations are always multiples of 30.
- `SlotGrid.BuildSlotMap`: requires every session to have an aligned start and a whole-slot duration, as stored rows always do. Sessions not of that shape are not modelled.
- `SlotGrid.SlotMapOf`: the same precondition as `BuildSlotMap`.
- `SessionModal.ModalState.Submit`: requires the start time it formats to be a clock time, as every stored or dropped start is.
- `SessionModal.MaxDuration`: requires a present start time to be clock-shaped.
