# chplvis trace database, ownership flow state and compiler driver helpers

This project models three parts of the Chapel repository in Dafny.

**The chplvis `DataModel`** (`tools/chplvis/DataModel.cxx`) loads the
VisualDebug trace files of a run, one per locale, and builds the database
the viewer draws from:

- `LoadData` finds the files from the name the user picked.
- `LoadFile` merges each file into one event list, `theEvents`. Start, tag,
  pause and end records are grouped. Other events go in time order.
  VisualDebug's own records are filtered out.
- A counting pass fills one `tagData` record per tag (`tagList`) with the
  locale-to-locale communication matrix and the per-locale task maps. It
  erases end-task records that no task takes.
- The task totals count tasks per locale and per tag.
- The timeline pass builds per-locale timelines (`taskTimeline`), tracks task
  concurrency, maps tag names to tag numbers (`name2tag`) and charges each
  communication to its task.
- When tag names repeat, same-named tags are merged into `utagList`.
- `getTaskData` looks a task up.

The class `DataModel` keeps these fields and updates them in place. The
event list is a `seq<Event>`. The cursor `itr` is an index into it. The tag
records live in an `array<TagData>`, and the timelines in an
`array<seq<Entry>>`. Each method is proved against a specification function
over values: `Offer`, `Filtered`, `CountStep`, `TotalledTable`,
`TimelineFold`, `UniqueTable`. Lemmas about those functions carry the
properties.

**The ownership flow manager** (`compiler/include/OwnershipFlowManager.h`)
holds, for every basic block and every tracked symbol, the bits of the
flow sets PROD, CONS, USE, USED_LATER, EXIT, IN and OUT. Each flow set is
modelled as an `array2<bool>`, one row per block. Only the header is
available, so the model follows the header's documented meaning of each
relation:

- PROD, CONS and USE record what each block's instructions do.
- USED_LATER is the least solution of the backward flow over the successors.
  It is proved equal to "some path from the block reaches a use".
- The single-producer check for PROD returns true exactly when no symbol
  except the return symbol is produced again, in another block, on a path
  leaving its block. A loop that returns to the producing block does not
  count as a second producer.
- Autocopy insertion for one block gives each consumption either a transfer
  of ownership (owned, and its last use) or an autocopy, and counts the
  autocopies.

**The compiler driver's helpers** (`compiler/main/driver.cpp`):

- the escaping of the recorded compile command;
- the `--set name[=value]` split;
- the trim of the executable path at `/bin` when guessing CHPL_HOME;
- the `--docs-comment-style` label check;
- the program name taken from argv[0];
- the `--fast`, `--baseline` and `--no-checks` presets, and the dependent
  `printCppLineno` fix-up.

The global flags are one record value, and each setter returns the updated
record.

File system access, `sscanf` line formats and clocks become parameters:

- a `FileSystem` value (the set of directory names and a map from file names
  to parsed trace files);
- a `TraceFile` (a header that scanned or did not, and the body lines already
  split into fields).

USED_LATER follows `compiler/include/OwnershipFlowManager.h:133-136`: the
symbols used in the block's successors only.

## Model

| member | source | states |
|---|---|---|
| Chplvis.DataModel.constructor | tools/chplvis/DataModel.cxx:44-51 | a new model has an empty event list, no locales or tags, empty tables, an empty name map, and tag names assumed unique; the constructor itself is in DataModel.h, which is not part of this model, so these initial values are assumed, matching what newList clears |
| Chplvis.DataModel.NewList | tools/chplvis/DataModel.cxx:44-51 | afterwards the event list is empty |
| TraceFiles.StripSlash | tools/chplvis/DataModel.cxx:59-64 | exactly one trailing '/' is removed, and any other name is unchanged |
| TraceFiles.FirstFileName | tools/chplvis/DataModel.cxx:71-74 | a directory `d` is read as `d/d-0`; any other name is read as given |
| TraceFiles.LastIndex | tools/chplvis/DataModel.cxx:76-76 | the position of the last occurrence of the character, or None exactly when it does not occur |
| TraceFiles.LocalePrefix | tools/chplvis/DataModel.cxx:76-83 | the file name up to and including its last '-'; None (not written by Chapel) when it has no '-' |
| TraceFiles.DecimalString | tools/chplvis/DataModel.cxx:143-143 | the `%d` numeral of a locale number: digits only, with no leading zero |
| TraceFiles.DecimalRoundTrip | tools/chplvis/DataModel.cxx:143-143 | reading the numeral back gives the locale number |
| TraceFiles.LocaleFileName | tools/chplvis/DataModel.cxx:143-143 | locale i's file name is the shared prefix followed by i's numeral |
| TraceFiles.LocaleFilesDistinct | tools/chplvis/DataModel.cxx:142-144 | two different locales never get the same file name |
| TraceFiles.DirectoryLocaleZero | tools/chplvis/DataModel.cxx:71-83 | for a directory, locale 0's file is the file whose first line gave the configuration |
| Chplvis.FileAt | tools/chplvis/DataModel.cxx:66-99 | a file is found exactly when the file system holds that name, and it is that file |
| Chplvis.LoadedUpTo | tools/chplvis/DataModel.cxx:142-148 | the load of locales 0..i-1 succeeds exactly when every one of their files is accepted (it exists, its header scanned, and it was written for this number of locales by that locale); the merged list then starts with a start event |
| Chplvis.LoadedUpToNext | tools/chplvis/DataModel.cxx:142-148 | one more locale either merges its file or makes the whole load fail, so no later locale can succeed |
| Chplvis.DataModel.LoadLocales | tools/chplvis/DataModel.cxx:142-161 | the loop over the locales succeeds exactly when LoadedUpTo does, and then leaves its list and tag count |
| Chplvis.DataModel.LoadNext | tools/chplvis/DataModel.cxx:143-148 | one turn of the locale loop advances LoadedUpTo by one locale, or the whole load fails |
| Chplvis.DataModel.LoadData | tools/chplvis/DataModel.cxx:53-694 | returns 0 or 1; 0 when the name is missing, when the file name has no '-', or when the first file has no scanning header; 0 with numLocales -1 when some locale's file is refused; once every locale's file loads, the result is 1 exactly when the node count is at least 1 and the merged list fits the tables; on 1, numLocales is the header's node count, the list is the merged files minus erased end-task records, and the tables satisfy Built |
| Chplvis.DataModel.LoadAndBuild | tools/chplvis/DataModel.cxx:77-694 | 0 with numLocales -1 when a locale's file is refused; otherwise 1 exactly when the node count is at least 1 and the merged list fits the tables, and then the list and tables are as LoadData promises |
| Chplvis.DataModel.BuildIfFits | tools/chplvis/DataModel.cxx:163-694 | 1 exactly when the node count is at least 1 and the list fits the tables; on 1 the tables are built from the list |
| Chplvis.DataModel.BuildTables | tools/chplvis/DataModel.cxx:163-670 | the list loses only end-task records, and the tables are built: names, ALL's traffic matrix and each tag's matrix of the traffic charged to it, concurrency bounds, matched timelines, name map and, on repeated names, the unique-tag table |
| Chplvis.DataModel.CountTables | tools/chplvis/DataModel.cxx:163-480 | fresh tag records and empty timelines, then the counting pass and the totals, leave TotalsOk: one record per top-level tag in list order after ALL and Start, ALL's matrix equal to the list's traffic, and every other record's matrix equal to the traffic charged to its tag |
| Chplvis.DataModel.TimelineTables | tools/chplvis/DataModel.cxx:482-609 | after the timeline pass the tables are TimedOk, and uniqueTags holds exactly when the tag names are distinct |
| Chplvis.TotalsKeep | tools/chplvis/DataModel.cxx:458-480 | the task totals keep every fact the counting pass established about the table |
| Chplvis.TimelineKeeps | tools/chplvis/DataModel.cxx:482-609 | the timeline pass, run from the totalled table, ends in a TimedOk state |
| Chplvis.CountedNames | tools/chplvis/DataModel.cxx:225-231 | after counting, the records after ALL and Start carry the names of locale 0's tag records, in list order |
| Chplvis.FrameNames | tools/chplvis/DataModel.cxx:482-609 | the timeline pass changes no tag name and no cell of ALL's matrix |
| Chplvis.Loaded | tools/chplvis/DataModel.cxx:751-1075 | merging one file adds at most its start event and one event per body line |
| Chplvis.LoadedStartsWithStart | tools/chplvis/DataModel.cxx:751-765 | a merged list always begins with a start event |
| Chplvis.DataModel.LoadFile | tools/chplvis/DataModel.cxx:699-1085 | succeeds exactly when the file exists, its header scans, and it names the model's locale count and this locale; on failure nothing changes; on success the list and tag count are Loaded's |
| Chplvis.DataModel.MergeLines | tools/chplvis/DataModel.cxx:767-1040 | the reader ends where ReadAll over the body lines ends, the list becomes OfferAll of the events read, offered from the cursor on, and numTags is the reader's tag count |
| TraceLines.StartReader | tools/chplvis/DataModel.cxx:745-755 | the header's task is a VisualDebug task exactly when the locale is not 0; the tag count starts at 0 |
| TraceLines.Read | tools/chplvis/DataModel.cxx:767-978 | each body line gives at most one event; VisualDebug tasks, their children, and their communications, begins and ends give none |
| TraceLines.CommDirection | tools/chplvis/DataModel.cxx:857-883 | a get runs from the remote locale to this one, and a put from this locale to the remote one |
| TraceLines.ReadAll | tools/chplvis/DataModel.cxx:767-978 | reading a body gives at most one event per line, in file order |
| TraceLines.TagsCounted | tools/chplvis/DataModel.cxx:913-931 | every tag line leaves the tag count above its tag id |
| TraceEvent.Rank | tools/chplvis/DataModel.cxx:984-984 | the kinds are ranked in Ekind order, and the markers (start, tag, pause, end) rank lowest |
| Chplvis.DataModel.InsertStart | tools/chplvis/DataModel.cxx:751-765 | the file's start event goes after the start events at the head of the list, and the cursor stays on the element after it |
| EventOrder.PlaceStart | tools/chplvis/DataModel.cxx:757-765 | the start event is inserted after the leading start events, and nothing else moves |
| Chplvis.DataModel.InsertEvent | tools/chplvis/DataModel.cxx:980-1040 | the list and cursor become Offer of the old list, cursor and event |
| EventOrder.Place | tools/chplvis/DataModel.cxx:980-1040 | into an empty list, or at the end, the event goes at the cursor; a marker goes after its group further on, or nowhere (event mismatch) when no event of its kind is ahead; any other event goes in time order among the non-markers |
| EventOrder.Offer | tools/chplvis/DataModel.cxx:980-1040 | the event is inserted once at Place's position, with the cursor just after it (still on the element it was on when the event goes before the cursor's element); on a mismatch the list is unchanged and the cursor is at the end of the list, where the scan for the event's kind stopped |
| EventOrder.FirstOfKind | tools/chplvis/DataModel.cxx:988-991 | the first position at or after the cursor that holds the kind, or the end |
| EventOrder.GroupEnd | tools/chplvis/DataModel.cxx:1001-1023 | the end of the run of same-group events (by kind; tags by tag number; pauses by tag id) |
| EventOrder.TimeSlot | tools/chplvis/DataModel.cxx:1031-1035 | the end of the run of non-markers earlier than the event |
| EventOrder.MarkerJoinsGroup | tools/chplvis/DataModel.cxx:986-1028 | a marker is inserted right after its group, which starts at the first event of its kind from the cursor |
| EventOrder.NonMarkerByTime | tools/chplvis/DataModel.cxx:1030-1037 | a non-marker goes before the first event from the cursor on that is a marker or is not earlier |
| EventOrder.AppendAtEnd | tools/chplvis/DataModel.cxx:981-984 | events offered to an empty list, or at its end, are appended in order |
| EventOrder.OfferAll | tools/chplvis/DataModel.cxx:767-1040 | offering a file's events one after the other, carrying the cursor, keeps every event offered or drops it at a mismatch |
| EventOrder.OfferAllSnoc | tools/chplvis/DataModel.cxx:767-1040 | one more line continues from the list and cursor the earlier lines left |
| Chplvis.DataModel.SkipToKind | tools/chplvis/DataModel.cxx:988-991 | the scan stops at FirstOfKind |
| Chplvis.DataModel.SkipGroup | tools/chplvis/DataModel.cxx:1001-1023 | the scan stops at GroupEnd |
| Chplvis.DataModel.SkipEarlier | tools/chplvis/DataModel.cxx:1031-1035 | the scan stops at TimeSlot |
| Chplvis.DataModel.FilterVdb | tools/chplvis/DataModel.cxx:1042-1075 | the list becomes Filtered: the locale's task and begin-task records of VisualDebug tasks are erased |
| EventOrder.Filtered | tools/chplvis/DataModel.cxx:1042-1075 | the filtered list is a subsequence that contains no VisualDebug task records of the locale |
| EventOrder.FilteredAppend | tools/chplvis/DataModel.cxx:1042-1075 | filtering a concatenation filters each part, so kept events keep their order |
| EventOrder.FilteredSnoc | tools/chplvis/DataModel.cxx:1042-1075 | one more event is kept exactly when it is not a VisualDebug record |
| EventOrder.FilteredCounts | tools/chplvis/DataModel.cxx:1042-1075 | every other event keeps its number of copies, and the VisualDebug records keep none |
| Chplvis.DataModel.CountPass | tools/chplvis/DataModel.cxx:186-456 | the list loses only end-task records; the tag names are kept; the table is CountedTags: names from locale 0's tags, ALL's matrix the traffic of the list, the Start record's and each top-level tag's matrix the traffic made while that tag was current, sound records and the concurrency pattern |
| Chplvis.DataModel.CountAndTotal | tools/chplvis/DataModel.cxx:163-480 | fresh tag records, then the counting pass and the task totals: the list is what the counting pass keeps of the old one, and the table is TotalsOk (counted names, traffic, sound records and totals) |
| Chplvis.DataModel.CountAt | tools/chplvis/DataModel.cxx:186-456 | one turn of the counting loop keeps the loop invariant CountLoop with this event's keep flag added, and the part of the list still to visit shrinks |
| Chplvis.DataModel.EraseAt | tools/chplvis/DataModel.cxx:440-444 | the event leaves the list, every other event keeps its order, and the cursor steps back to the event before it unless it was at the front |
| Chplvis.DataModel.CountEvent | tools/chplvis/DataModel.cxx:190-455 | the table, the new tag number and whether the event stays are CountStep's |
| LoadPasses.CountStep | tools/chplvis/DataModel.cxx:208-451 | each event changes at most the current tag, ALL and Start; a transfer is counted in both; a task is entered; an end that no task takes is dropped |
| LoadPasses.CountStepKeeps | tools/chplvis/DataModel.cxx:190-455 | one event of the pass keeps CountedTags over the kept events |
| LoadPasses.CountedFresh | tools/chplvis/DataModel.cxx:170-175 | a table of fresh records is what the pass has built before any event |
| Chplvis.DataModel.CountStart | tools/chplvis/DataModel.cxx:210-223 | a start record names ALL and Start, opens them on its locale, and runs the main task on locale 0 |
| LoadPasses.SeedAll | tools/chplvis/DataModel.cxx:210-223 | ALL is named "ALL", opened on the locale, and peaks at 1 on locale 0 |
| LoadPasses.SeedStart | tools/chplvis/DataModel.cxx:210-223 | Start is named "Start" and runs one task on locale 0 |
| Chplvis.DataModel.CountTag | tools/chplvis/DataModel.cxx:225-271 | the table and tag number become TagStep's |
| LoadPasses.TagStep | tools/chplvis/DataModel.cxx:225-271 | locale 0's record starts and names the next tag; the tag, and ALL unless already open, open on the locale; the previous tag closes there |
| LoadPasses.TagStepNames | tools/chplvis/DataModel.cxx:225-231 | only a locale-0 tag record renames a tag, and only the new one |
| LoadPasses.TagStepOpens | tools/chplvis/DataModel.cxx:233-270 | afterwards the new tag is open on the locale and the previous one is closed |
| Chplvis.DataModel.NameTag | tools/chplvis/DataModel.cxx:226-231 | the tag takes the record's name, and nothing else changes |
| Chplvis.DataModel.OpenTag | tools/chplvis/DataModel.cxx:233-241 | the tag is opened on the locale |
| Chplvis.DataModel.CloseTag | tools/chplvis/DataModel.cxx:243-270 | the tag is closed on the locale if it is open there, and the VisualDebug task record is dropped |
| Chplvis.DataModel.SwitchTo | tools/chplvis/DataModel.cxx:232-270 | the tag records become SwitchTag's: the locale moves from tag c + 1 to tag c + 2 |
| LoadPasses.SwitchTag | tools/chplvis/DataModel.cxx:232-270 | the new tag (and ALL, if needed) opened on the locale and then the old tag closed there; the table keeps its size and shape |
| LoadPasses.SwitchFacts | tools/chplvis/DataModel.cxx:232-270 | the switch keeps every counter, name and matrix; afterwards the new tag is open on the locale and the old one is closed, and ALL is open unless the closed tag is ALL itself |
| LoadPasses.NameIn | tools/chplvis/DataModel.cxx:226-231 | naming tag k keeps the table's size and every record's shape |
| LoadPasses.NameInFacts | tools/chplvis/DataModel.cxx:226-231 | only tag k's name changes, and it becomes the given name |
| LoadPasses.OpenIn | tools/chplvis/DataModel.cxx:232-241 | opening tag k on a locale keeps the table's size and every record's shape |
| LoadPasses.OpenInFacts | tools/chplvis/DataModel.cxx:232-241 | the tag is open on the locale afterwards; every counter, name and matrix is kept, and every other record is unchanged |
| LoadPasses.CloseIn | tools/chplvis/DataModel.cxx:243-270 | closing tag k on a locale where it is open keeps the table's size and every record's shape |
| LoadPasses.CloseInFacts | tools/chplvis/DataModel.cxx:243-270 | the tag is closed on the locale afterwards; every counter, name and matrix is kept, and every other record is unchanged |
| Chplvis.DataModel.CountClose | tools/chplvis/DataModel.cxx:273-336 | a pause or end record closes the current tag and ALL on its locale |
| TagStats.CloseLocale | tools/chplvis/DataModel.cxx:243-336 | the locale is closed, its VisualDebug task is dropped from the task map, and every other locale, the matrix and the tag's name are kept (the test for an open locale is made by the caller, LoadPasses.CloseIn) |
| TagStats.OpenLocale | tools/chplvis/DataModel.cxx:232-241 | the locale is marked open, and its counters and tasks are kept |
| TagStats.SetLocale | tools/chplvis/DataModel.cxx:232-270 | only locale l's data changes; the matrix, the name and the tag maxima are kept, soundness is kept when the new task map is sound, and the concurrency pattern is kept when the new data keeps its counters |
| Chplvis.DataModel.CountTransfer | tools/chplvis/DataModel.cxx:338-367 | a communication or fork is counted in the current tag and in ALL |
| TagStats.Count | tools/chplvis/DataModel.cxx:338-367 | one more communication: numComms grows by one, exactly one of gets, puts and forks grows, and the size grows by the bytes moved |
| TagStats.RecordTransfer | tools/chplvis/DataModel.cxx:338-367 | only the (src, dst) cell changes, and maxComms and maxSize follow it |
| LoadPasses.Traffic | tools/chplvis/DataModel.cxx:338-367 | ALL's matrix cell counts every transfer between the two locales, once each |
| LoadPasses.CountStepTraffic | tools/chplvis/DataModel.cxx:338-367 | one event of the pass keeps every record after ALL holding the traffic charged to its tag: a transfer is counted in the current tag's record and no other |
| LoadPasses.CountStepComms | tools/chplvis/DataModel.cxx:190-455 | of the records after ALL, only a transfer changes a matrix, and only the current tag's, in the transfer's one cell |
| LoadPasses.KeptTagTraffic | tools/chplvis/DataModel.cxx:338-367 | matrices that change as CountStepComms says follow the traffic charged to each tag over the grown list |
| LoadPasses.TagTrafficLater | tools/chplvis/DataModel.cxx:338-367 | a tag whose record has not been reached has been charged nothing |
| LoadPasses.TrafficIsTagSum | tools/chplvis/DataModel.cxx:338-367 | each transfer is charged to exactly one tag: the traffic of the list is the sum of the traffic charged to the Start tag and the top-level tags |
| LoadPasses.AllIsTagSum | tools/chplvis/DataModel.cxx:338-367 | in a counted table, each cell of ALL's matrix is the sum of that cell over the Start record and every tag record |
| Chplvis.DataModel.CountTask | tools/chplvis/DataModel.cxx:369-386 | a task record enters its task in the current tag, unless the task is already there |
| TagStats.AddTask | tools/chplvis/DataModel.cxx:369-386 | a new task id gets a record holding the task event; an existing id is left alone |
| Chplvis.DataModel.CountBegin | tools/chplvis/DataModel.cxx:387-402 | the begin record is attached to the task when the current tag holds it, and otherwise nothing changes |
| TagStats.UpdateTask | tools/chplvis/DataModel.cxx:387-420 | a task the map holds gets new data, and a missing task changes nothing |
| Chplvis.DataModel.CountEndTask | tools/chplvis/DataModel.cxx:404-448 | the end record goes to the task in the current tag, or else in the nearest earlier tag down to Start that holds it; the result says whether a task took it |
| LoadPasses.FreshTag | tools/chplvis/DataModel.cxx:170-175 | a fresh record counts the main task on locale 0 as its task maximum |
| Chplvis.DataModel.TaskTotals | tools/chplvis/DataModel.cxx:458-480 | the table becomes TotalledTable of the old one |
| TaskTotals.TotalledTable | tools/chplvis/DataModel.cxx:458-480 | every tag counts its tasks per locale; ALL sums every tag's tasks with the main task counted once |
| TaskTotals.Totalled | tools/chplvis/DataModel.cxx:463-473 | each locale's count is its task map's size plus the main task on locale 0, and maxTasks is their maximum |
| TaskTotals.AllTotalled | tools/chplvis/DataModel.cxx:458-480 | ALL's locale counts are the main task plus the sum over all tags, and its maxTasks is their maximum |
| TaskTotals.TotalledMaxAttained | tools/chplvis/DataModel.cxx:471-473 | each tag's maxTasks is the count of one of its locales |
| TaskTotals.TotalledKeeps | tools/chplvis/DataModel.cxx:458-480 | the totals change only task counts and maxima: names, matrices and sound records are kept |
| Chplvis.DataModel.TotalStep | tools/chplvis/DataModel.cxx:463-480 | one more tag is counted and added into ALL's running totals |
| Chplvis.DataModel.ResetAll | tools/chplvis/DataModel.cxx:459-462 | before the totals, ALL counts only the main task, on locale 0 |
| Chplvis.DataModel.TotalTag | tools/chplvis/DataModel.cxx:464-479 | the tag becomes Totalled, and ALL takes in its locale counts |
| Chplvis.DataModel.TotalLocale | tools/chplvis/DataModel.cxx:465-478 | one turn of the per-locale loop: the tag counts one more locale, and ALL takes in that locale's count |
| Chplvis.DataModel.TimelinePass | tools/chplvis/DataModel.cxx:482-609 | the state becomes TimelineFold over the list from TimelineStart, ending at the last tag number |
| Chplvis.DataModel.TimelineSeed | tools/chplvis/DataModel.cxx:482-488 | ALL and Start peak at the main task and the pass starts at Start: the state becomes TimelineStart |
| Chplvis.DataModel.TimelineLoop | tools/chplvis/DataModel.cxx:490-609 | the state becomes TimelineFold over every event of the list, in order, from the seeded state |
| Chplvis.DataModel.TimelineAt | tools/chplvis/DataModel.cxx:491-608 | one turn of the loop: the state after event i is TimelineFold over the list through i, and that prefix stays runnable |
| Timeline.TimelineStart | tools/chplvis/DataModel.cxx:483-488 | ALL and Start peak at the main task, and the pass starts at Start |
| Timeline.TimelineFold | tools/chplvis/DataModel.cxx:490-608 | the pass over the events, one after the other |
| Timeline.TimelineSound | tools/chplvis/DataModel.cxx:482-609 | the whole pass keeps the concurrency bounds and matched timelines, and changes only concurrency counters and task data |
| Timeline.TimelineNames | tools/chplvis/DataModel.cxx:503-520 | afterwards name2tag maps each name to its first tag number, and uniqueTags holds exactly when the names are distinct |
| Timeline.StartSound | tools/chplvis/DataModel.cxx:483-488 | the starting state is sound |
| Chplvis.DataModel.TimelineEvent | tools/chplvis/DataModel.cxx:490-608 | the state becomes TimelineStep of the old state and the event |
| Timeline.TimelineStep | tools/chplvis/DataModel.cxx:499-605 | tags, begins and ends go on the timeline; forks and communications are charged to their task; other events change nothing |
| Chplvis.DataModel.TimelineTag | tools/chplvis/DataModel.cxx:503-527 | the state becomes TagTimeline |
| Chplvis.DataModel.EnterTag | tools/chplvis/DataModel.cxx:520-525 | the locale's timeline gets a tag entry, the tag's running and peak counts there take the running count of the tag before it, the tag's peak takes that count in, and nothing else changes |
| Timeline.TagTimeline | tools/chplvis/DataModel.cxx:503-527 | locale 0 moves to the next tag and enters a new name; the tag goes on the timeline and takes over the previous tag's running count |
| Timeline.TagConc | tools/chplvis/DataModel.cxx:521-525 | a tag record keeps the concurrency bounds |
| Chplvis.DataModel.TimelineBegin | tools/chplvis/DataModel.cxx:529-551 | the state becomes BeginTimeline |
| Timeline.BeginTimeline | tools/chplvis/DataModel.cxx:529-551 | a task the tag holds goes on the timeline and runs; a new peak is carried up to the tag and to ALL |
| Timeline.BeginConc | tools/chplvis/DataModel.cxx:537-549 | a begin record keeps ALL's peaks above every tag's |
| Chplvis.DataModel.TimelineEnd | tools/chplvis/DataModel.cxx:553-572 | the state becomes EndTimeline |
| Timeline.EndTimeline | tools/chplvis/DataModel.cxx:553-572 | an end whose task began on the timeline goes on it, and one task fewer runs |
| Timeline.MatchedSnoc | tools/chplvis/DataModel.cxx:553-572 | appending keeps every end preceded by a begin of its task |
| Chplvis.DataModel.FindBegin | tools/chplvis/DataModel.cxx:556-570 | found exactly when the timeline holds a begin entry for the task |
| Chplvis.DataModel.ChargeTask | tools/chplvis/DataModel.cxx:574-603 | the state becomes ChargeEvent |
| Timeline.ChargeEvent | tools/chplvis/DataModel.cxx:574-603 | the task getTaskData finds gets the event on its list and in its sums; a missing task changes nothing |
| TagStats.Charge | tools/chplvis/DataModel.cxx:578-600 | the event is appended to the task's list, the task's sums are counted with the event's transfer (numComms grows by one), and the task, begin and end records are kept |
| Chplvis.DataModel.GetTaskData | tools/chplvis/DataModel.cxx:1089-1112 | the result is FindTask's |
| Timeline.FindTaskSpec | tools/chplvis/DataModel.cxx:1089-1112 | task 1 on locale 0 is the main task; otherwise the task in tag tagNo, else in the first tag from Start on that holds it, else none |
| Timeline.FindTask | tools/chplvis/DataModel.cxx:1089-1112 | a task found in a tag is in that tag's task map on the locale, and the tag is Start or a top-level tag |
| Timeline.ScanTasks | tools/chplvis/DataModel.cxx:1103-1109 | the first tag in the range whose map on the locale holds the task, or none |
| Chplvis.DataModel.MergeUniqueTags | tools/chplvis/DataModel.cxx:611-668 | utagList becomes UniqueTable and name2tag becomes UniqueIndex |
| Chplvis.DataModel.MergeIfRepeated | tools/chplvis/DataModel.cxx:611-668 | after the timeline pass, the tables are Built: when a name repeats, name2tag becomes the unique index and each utagList record the merge of its name's tags; otherwise name2tag is the map of each name to its tag |
| Chplvis.DataModel.NewUniqueTable | tools/chplvis/DataModel.cxx:619-621 | one fresh empty record per unique name |
| Chplvis.DataModel.MergeLoop | tools/chplvis/DataModel.cxx:625-668 | the loop over the tags ends with the unique table and index |
| Chplvis.DataModel.MergeNext | tools/chplvis/DataModel.cxx:626-668 | one turn follows the merge fold one tag further |
| Chplvis.DataModel.MergeStep | tools/chplvis/DataModel.cxx:627-667 | a new name takes the next record and name2tag points at it; the tag is merged into its name's record |
| Chplvis.DataModel.MergeTag | tools/chplvis/DataModel.cxx:634-667 | the record becomes MergeInto |
| Chplvis.DataModel.MergeLocaleRow | tools/chplvis/DataModel.cxx:635-666 | one more locale's counts, peak and matrix row are merged |
| Chplvis.DataModel.MergeRow | tools/chplvis/DataModel.cxx:655-665 | cells are summed, and the comms and size maxima take in each merged cell |
| Chplvis.DataModel.MergeRows | tools/chplvis/DataModel.cxx:635-666 | every locale of the tag merged into the unique record, in order: the counts, peaks and matrix rows of MergedRows |
| LoadPasses.MergeInto | tools/chplvis/DataModel.cxx:634-667 | task counts and cells add up, each concurrency peak is the larger one, and the maxima are over the merged values |
| LoadPasses.MergedTotals | tools/chplvis/DataModel.cxx:634-667 | a unique record's task counts and cells are the sums over all tags with its name |
| UniqueTags.UniqueTable | tools/chplvis/DataModel.cxx:611-668 | one record per distinct name, in order of first appearance |
| UniqueTags.UniqueTableShape | tools/chplvis/DataModel.cxx:618-621 | the table has one well-shaped record per distinct name, carrying that name |
| UniqueTags.UniqueRecordIs | tools/chplvis/DataModel.cxx:624-668 | the record of a name is every tag with that name merged into a fresh record |
| UniqueTags.MergeFoldDone | tools/chplvis/DataModel.cxx:625-668 | after the last tag, the loop holds the unique index and table |
| UniqueTags.MergeFoldIs | tools/chplvis/DataModel.cxx:625-668 | after p tags the loop MergeFold holds name2tag remapped for the names met so far, one record per unique name met, and each record the merge of its name's tags so far |
| UniqueTags.IndexKeys | tools/chplvis/DataModel.cxx:616-621 | the index has one key per distinct name |
| LoadPasses.TopTags | tools/chplvis/DataModel.cxx:225-231 | the names of locale 0's tag records, in list order |
| LoadPasses.FirstIndex | tools/chplvis/DataModel.cxx:509-517 | each name maps to the first position that carries it |
| LoadPasses.Uniques | tools/chplvis/DataModel.cxx:618-633 | the distinct names, in order of first appearance |
| LoadPasses.UniquesCount | tools/chplvis/DataModel.cxx:618-621 | the name map has one entry per unique name, which is how many unique records are allocated |
| LoadPasses.UniquesOfDistinct | tools/chplvis/DataModel.cxx:611-612 | merging changes nothing exactly when the names are already distinct |
| OwnershipFlow.Position | compiler/include/OwnershipFlowManager.h:56-63 | each flow set has its own bit position below 7 |
| OwnershipFlow.FlagBit | compiler/include/OwnershipFlowManager.h:56-65 | each flag is a single bit inside FlowSet_ALL |
| OwnershipFlow.FlagsDistinct | compiler/include/OwnershipFlowManager.h:56-65 | two different flow sets never share a flag bit |
| OwnershipFlow.DedupFacts | compiler/include/OwnershipFlowManager.h:78-83 | the symbol vector keeps every symbol, adds none, and lists none twice |
| OwnershipFlow.IndexedHit | compiler/include/OwnershipFlowManager.h:81-83 | symbolIndex gives exactly the position of a symbol in the symbol vector |
| OwnershipFlow.OwnershipFlowManager.constructor | compiler/include/OwnershipFlowManager.h:167-167 | the manager records the function's blocks, successors and return symbol, and no symbols yet |
| OwnershipFlow.OwnershipFlowManager.ExtractSymbols | compiler/include/OwnershipFlowManager.h:78-83 | symbols lists each symbol once, in order of first appearance; nsyms is its length; symbolIndex inverts it |
| OwnershipFlow.OwnershipFlowManager.CreateFlowSets | compiler/include/OwnershipFlowManager.h:106-149 | seven fresh flow sets, one vector per block and one clear bit per symbol |
| OwnershipFlow.OwnershipFlowManager.CreateBlockSets | compiler/include/OwnershipFlowManager.h:106-136 | PROD, CONS, USE and USED_LATER become fresh clear sets, one vector per block and one bit per symbol |
| OwnershipFlow.OwnershipFlowManager.CreateSolveSets | compiler/include/OwnershipFlowManager.h:141-149 | EXIT, IN and OUT become fresh clear sets, one vector per block and one bit per symbol |
| OwnershipFlow.OwnershipFlowManager.ComputeTransitions | compiler/include/OwnershipFlowManager.h:89-131 | PROD(i,j) iff block i defines symbol j; USE(i,j) iff it reads, takes the address of, or consumes it; CONS(i,j) iff it consumes it |
| OwnershipFlow.OwnershipFlowManager.FillSet | compiler/include/OwnershipFlowManager.h:196-201 | every row of the flow set records the block's references of the given kinds |
| OwnershipFlow.OwnershipFlowManager.MarkRow | compiler/include/OwnershipFlowManager.h:196-201 | one block's row records exactly the symbols it mentions with those kinds |
| OwnershipFlow.OwnershipFlowManager.BackwardFlow | compiler/include/OwnershipFlowManager.h:133-136 | the result is Solved: each bit is set iff a successor has the source or result bit, and iff some path from the block reaches a source bit |
| OwnershipFlow.OwnershipFlowManager.BackwardFlowUse | compiler/include/OwnershipFlowManager.h:133-136 | USED_LATER(i,j) holds iff USE or USED_LATER holds in some successor, and iff a path from block i reaches a use of symbol j |
| OwnershipFlow.OwnershipFlowManager.ClosedSolved | compiler/include/OwnershipFlowManager.h:133-136 | a justified set that no sweep changes is the solution |
| OwnershipFlow.OwnershipFlowManager.Sweep | compiler/include/OwnershipFlowManager.h:133-136 | one pass over the blocks sets only justified bits; when it sets none, the set is closed |
| OwnershipFlow.OwnershipFlowManager.SweepRow | compiler/include/OwnershipFlowManager.h:133-136 | one block's bits are raised where a successor requires it |
| OwnershipFlow.OwnershipFlowManager.AnySucc | compiler/include/OwnershipFlowManager.h:133-136 | true iff some successor has the source or result bit |
| OwnershipFlow.OwnershipFlowManager.CheckSingleProducer | compiler/include/OwnershipFlowManager.h:89-105 | true iff no symbol except the return symbol is produced in a block and produced again in another block on a path leaving it; a path that only returns to the same block holds one producer |
| OwnershipFlow.OwnershipFlowManager.RowSingle | compiler/include/OwnershipFlowManager.h:89-105 | the same test for the producers of one block |
| OwnershipFlow.OwnershipFlowManager.OthersOf | compiler/include/OwnershipFlowManager.h:89-105 | PROD with the given block's producers cleared, every other bit kept |
| OwnershipFlow.OwnershipFlowManager.OthersReach | compiler/include/OwnershipFlowManager.h:89-105 | a path from the block reaches a producer of that set exactly when it reaches a producer in another block |
| OwnershipFlow.OwnershipFlowManager.ScanRow | compiler/include/OwnershipFlowManager.h:89-105 | true iff no non-return symbol has both its PROD bit and its later-producer bit set in the block |
| OwnershipFlow.OwnershipFlowManager.SelfLoopSingle | compiler/include/OwnershipFlowManager.h:92-95 | a block that is its own only successor, such as a loop body holding a declaration, has no second producer after it |
| OwnershipFlow.OwnershipFlowManager.InsertAutoCopies | compiler/include/OwnershipFlowManager.h:113-123 | the plan has one action per reference of the block, each the Decision from the symbols IN marks owned and USED_LATER marks used later, and the copy count is the number of autocopies |
| OwnershipFlow.OwnershipFlowManager.ReadsLater | compiler/include/OwnershipFlowManager.h:118-123 | true iff a later reference in the block reads the symbol |
| OwnershipFlow.CopyCount | compiler/include/OwnershipFlowManager.h:115-117 | the count of autocopies is at most the number of actions |
| OwnershipFlow.TransferIsLastUse | compiler/include/OwnershipFlowManager.h:118-120 | a transfer happens only at a consumption of an owned symbol that is its last use |
| OwnershipFlow.OneTransferPerSymbol | compiler/include/OwnershipFlowManager.h:118-123 | ownership of a symbol is transferred at most once in a block |
| OwnershipFlow.UnownedIsCopied | compiler/include/OwnershipFlowManager.h:113-117 | a consumption of a symbol that is not owned there gets an autocopy |
| OwnershipFlow.ConsumedTwice | compiler/include/OwnershipFlowManager.h:120-123 | an owned symbol consumed twice and not used later gets an autocopy at the first consumption and a transfer at the second |
| OwnershipFlow.NotOwnedYet | compiler/include/OwnershipFlowManager.h:113-117 | a symbol neither owned on entry nor defined earlier in the block is not owned |
| OwnershipFlow.StillOwned | compiler/include/OwnershipFlowManager.h:118-120 | an owned symbol stays owned until a reference touches it |
| Driver.RecordCodeGenStrings | compiler/main/driver.cpp:350-373 | the recorded command is CompileCommand of argv |
| Driver.CommandStart | compiler/main/driver.cpp:351-351 | the command begins with "chpl " |
| Driver.CommandFraming | compiler/main/driver.cpp:353-372 | each argument after argv[0] adds exactly its escaped text and one space, in order |
| Driver.EscapeArg | compiler/main/driver.cpp:357-370 | the strchr loop yields Escaped of the argument |
| Driver.FindQuote | compiler/main/driver.cpp:357-357 | the first quote at or after the position, or the end |
| Driver.Piece | compiler/main/driver.cpp:359-367 | a bare quote becomes a backslash and a quote; any other character is copied |
| Driver.EscapedQuotesGuarded | compiler/main/driver.cpp:355-369 | every quote in the escaped text is preceded by a backslash |
| Driver.EscapedLength | compiler/main/driver.cpp:355-369 | escaping adds exactly one character per bare quote |
| Driver.EscapedQuoteFree | compiler/main/driver.cpp:355-371 | an argument without quotes is copied unchanged |
| Driver.EscapingMerges | compiler/main/driver.cpp:353-354 | a quote and an already escaped quote are recorded alike |
| Driver.EscapedChunk | compiler/main/driver.cpp:358-358 | a stretch without quotes is copied as it is |
| Driver.ReadConfig | compiler/main/driver.cpp:439-462 | fatal ("Missing config param value") iff the first '=' is the last character; otherwise the name has no '=', a non-empty value is what follows the first '=', and a bare name gets "" |
| Driver.Find | compiler/main/driver.cpp:447-447 | the first position of the character, or the length |
| Driver.ReadConfigJoined | compiler/main/driver.cpp:447-454 | joining a name and a non-empty value with '=' reads back as that name and value |
| Driver.ReadConfigBare | compiler/main/driver.cpp:459-461 | a bare name reads back as itself with the value "" |
| Driver.TrimAtBin | compiler/main/driver.cpp:213-224 | the path is cut at LastBin, or left unchanged when there is none |
| Driver.LastBin | compiler/main/driver.cpp:214-223 | the last "/bin" starting at or before len-5, or -1 when there is none |
| Driver.LastBinFrom | compiler/main/driver.cpp:215-223 | the last "/bin" at or before j, or -1 |
| Driver.TrimmedPrefix | compiler/main/driver.cpp:220-220 | the kept path is followed by "/bin" in the original |
| Driver.CommentLabelAsWritten | compiler/main/driver.cpp:283-295 | empty labels leave the label; a label over 256 characters is fatal; one not starting with "/*" is fatal; otherwise it is copied |
| Driver.LabelOverflow | compiler/main/driver.cpp:287-292 | a 256-character label passes the check but needs 257 bytes with its terminator |
| Driver.CommentLabel | compiler/main/driver.cpp:283-295 | the same, but a label that does not fit the 256-byte buffer with its terminator is fatal |
| Driver.CommentLabelFits | compiler/main/driver.cpp:135-135 | every label kept fits the buffer with its terminator |
| Driver.ProgramName | compiler/main/driver.cpp:415-427 | the name is the suffix of argv[0] after its last '/', or the whole of argv[0]; it holds no '/' |
| Driver.ProgramNameNoSlash | compiler/main/driver.cpp:418-420 | with no slash, the name is all of argv[0] |
| Driver.ProgramNameOfPath | compiler/main/driver.cpp:421-424 | the name of dir/name is name |
| Driver.TurnOffChecks | compiler/main/driver.cpp:482-486 | the nil, bounds and local checks are turned off, and nothing else changes |
| Driver.SetFastFlag | compiler/main/driver.cpp:488-512 | every optimisation-disable flag is cleared; baseline and IEEE float are off; all four check flags are set; C optimisation is on; the dispatch limit and the other flags are kept |
| Driver.SetBaselineFlag | compiler/main/driver.cpp:514-533 | every optimisation-disable flag is set, baseline is on, and the dispatch limit is 0; checks, IEEE float and C optimisation are kept |
| Driver.ChecksAlreadyOff | compiler/main/driver.cpp:482-512 | after --fast, --no-checks changes nothing |
| Driver.LastPresetWins | compiler/main/driver.cpp:488-533 | of --fast and --baseline, the one given last decides the optimisation flags |
| Driver.SetupDependentVars | compiler/main/driver.cpp:736-740 | a developer who did not set C line numbers gets none; in every other case nothing changes |
| Driver.SetupDependentVarsIdempotent | compiler/main/driver.cpp:736-740 | applying the fix-up twice is the same as once |

## Left out

- Chplvis.DataModel.LoadData: a trace whose node count is below 1, or whose events name a locale, a communication end or a tag number outside the tables, is rejected with 0; the source indexes out of its arrays there.
- Chplvis.DataModel.LoadData, Chplvis.DataModel.LoadAndBuild, Chplvis.DataModel.BuildIfFits: each returns 0 for a trace whose number of top-level tags differs from numTags (`Fits` asks for equality), so each promises 1 only when the two are equal. The source loads a trace with fewer tag records than numTags (say, two locales where locale 0 has no tag line and locale 1 has one with id 0) and leaves the extra tag records unnamed; the model does not cover that case.
- Chplvis.DataModel.LoadData: requires an empty name map and `uniqueTags` set. The source never resets them between loads, so names from an earlier load would stay.
- Chplvis.DataModel.LoadData: the version check only raises an alert in the source and changes nothing, so it is not modelled.
- Chplvis.DataModel.LoadFile: the run-stamp comparison `fabs(seq-fseq) > .01` (floating point) and the final `feof` check (I/O) are not modelled.
- Floating-point times are not modelled: user, system and clock times, Cpu, maxCpu, maxClock, maxTaskClock and taskClock. With taskClock goes its computation from the end and begin records' clock times: when the task in the current tag has no begin record, the source reads through a null `beginRec` there and crashes, while the model just records the end. The reference clock `refTime != 0` is modelled as the flag `hasRef`.
- `strDB` string interning and `firstTag` iterators are not modelled. Neither are the diagnostics printed with `printf`, `fprintf`, `fl_message` and `fl_alert`, or the freeing of the previous tables.
- The `sscanf` formats of trace lines are not modelled: lines arrive already split into fields. A line whose fields did not scan is `Malformed`, and one without a time is `NoTime`.
- TraceFiles.FirstFileName: names are not cut at MAXPATHLEN-1 characters. The source formats the first file name with `snprintf` into a `MAXPATHLEN` buffer, so a directory name long enough that `d/d-0` exceeds that length is cut there; the model keeps the whole name. MAXPATHLEN is the platform's value when an included header defines it, and 2048 otherwise (`tools/chplvis/DataModel.cxx:39-41`), so without such a header the cut is at 2047 characters. `TraceFiles.LocaleFileName` inherits the uncut prefix; its own buffer of `namesize+15` bytes always holds the locale number, so it cuts nothing further.
- Chplvis.DataModel.InsertStart: stops at the end of the list. The source's loop that skips the leading start events has no end check, so on a list holding only start events it runs past the end; the model appends the new start event there instead.
- Timeline.ChargeEvent: charges the task found in the ALL tag. The source calls getTaskData with two arguments, and the default tag number lives in DataModel.h, which is not part of this model; it is assumed to be ALL.
- TraceEvent.Event.TotalLen: Event.h is not part of this model, so `totalLen()` is assumed to be the element size times the element count.
- TraceLines: Event.h is not part of this model, so an E_comm's `node()` is assumed to be its source locale.
- TraceLines.Read: Event.h is not part of this model, so the fields of `E_fork(sec, usec, nid, rnid, dlen, fast, vdbTid)` are assumed: the fork's `nodeId()` and `srcId()` are nid, its `dstId()` is rnid, its argument size is dlen and its `inTask()` is vdbTid. The counting pass reads `srcId()`/`dstId()` and the timeline pass reads `nodeId()`/`inTask()` under this mapping.
- Timeline.TagTimeline: the source's assertion that the tag record's number equals the current tag number is not modelled; the model uses the current tag number.
- Timeline.StartSound: states soundness for the table LoadData builds (at least one locale, main task peak 1), not for an arbitrary table.
- OwnershipFlow: the bodies of the manager's methods are not part of this model. Each operation is modelled from the header's documented meaning of its relation. These are left out:
  - the forward and backward ownership flows that compute IN and OUT (`forwardFlowOwnership`, `backwardFlowOwnership`, `checkForwardOwnership`); IN and OUT are read as given;
  - EXIT and `computeExits`;
  - aliases (`populateAliases`);
  - basic block construction;
  - the IR rewriting by autocopy and autodestroy insertion (`insertAutoDestroys`, `iteratorInsertAutoDestroys`);
  - the print routines.
- OwnershipFlow.OwnershipFlowManager.InsertAutoCopies: plans the actions for one block instead of rewriting the IR. A consumption counts as a read in USE, a modelling choice the header leaves open.
- OwnershipFlow.OwnershipFlowManager.CheckSingleProducer: a violation is an internal compiler error in the source. The model returns false instead.
- BitVec flow sets are rows of an `array2<bool>`, and symbols are integers.
- Driver: `setupChplHome` beyond the `/bin` trim is left out (environment variables, `isSameFile`, `setenv`, FILENAME_MAX checks). So are `findProgramPath` (the program location in `compute_program_name_loc`), `parseCmdLineConfig`, `get_version`, argument parsing, gdb launch, timers and the pass driver.
- Driver.RecordCodeGenStrings: `astr` interning is plain concatenation.

## Findings

| source | as written | input that shows it | evidently intended | confidence | as-written member | corrected member |
|---|---|---|---|---|---|---|
| compiler/main/driver.cpp:287-292 | `len > sizeof(fDocsCommentLabel)` lets a 256-character label through to `strcpy` into a 256-byte buffer | "/*" followed by 254 more characters: the check passes, and the copy writes 257 bytes | reject labels of 256 characters or more, so the label and its terminator fit | medium, not executed | Driver.LabelOverflow | Driver.CommentLabelFits |
