# babycare-log, modelled in Dafny

babycare-log is an offline-first web application in which parents and carers log a
child's symptoms (fever with a temperature, cough, vomiting, …) and medications, group them
into incidents, read automatic insights and export or share reports. This project models its
core in Dafny and proves properties of the model:

- the local store (records, children, incidents, the pending-operation queue and the
  per-table sync watermarks) as a class over maps, a sequence and a monotone counter;
- the optimistic mutation hook (create, update, delete, fetch with cache fallback) and the
  sync hook (draining the queue, hydrating the cache from the server);
- the rule engine that turns a record list into prioritised insights, the consecutive-day
  counter and the health-meter classifier;
- the CSV and share-text serialisers, including CSV quoting and a reader that recovers every
  field;
- the payload builders, validators and selection rules of the forms, dialogs and pages.

Time is integer milliseconds since the epoch, with the current time passed as a parameter.
Days are whole multiples of one day of milliseconds. Temperatures are integer tenths of a
degree Celsius. Every remote call (the database, authentication, storage, the server's
functions) is a parameter of type `Remote.Reply`: the call failed, or it returned some data or
none. Random ids, user confirmations and the browser's `localStorage` are parameters too.
The fever threshold, `isFever`, and the temperature and date formatting are imported by the
original code from a module that is not part of this model; they are parameters of the
members that use them.

Each source file maps to one `.dfy` file and module. Shared helpers live in `Wrappers`,
`Remote`, `Time`, `Text`, `Lists`, `Sorting` and `RecordTypes`. Three more modules hold
parts of one source file that stand on their own: `DateFilter` (the date-range filter of the
records and report pages), `SymptomTally` (the symptom count of the rule engine) and
`ConsecutiveDays` (its longest run of fever days).

## Model

| member | source | states |
|---|---|---|
| OfflineDb.PutAll | lib/offlineDb.ts:85-90 | a batch of `put`s leaves every item under its key; a later item with the same key overwrites an earlier one |
| OfflineDb.PutAllKeys | lib/offlineDb.ts:85-90 | after a batch the store's keys are the old keys plus the batch's keys |
| OfflineDb.PutAllLastWins | lib/offlineDb.ts:85-90 | an item that no later item of the batch overwrites is what its key holds (last write wins) |
| OfflineDb.PutAllOthersUnchanged | lib/offlineDb.ts:85-90 | keys the batch does not mention keep their old values: saving is an upsert, never a replace, so stale rows stay |
| OfflineDb.PutAllKeyed | lib/offlineDb.ts:49 | a store written only with `put` keeps every entry under its own `id` key |
| OfflineDb.SelectInKeyOrder | lib/offlineDb.ts:92-98 | returns, in ascending key order, exactly the values of the store that pass the filter, each once |
| OfflineDb.InsertOp | lib/offlineDb.ts:71 | a new queue entry is put at its place in the `by-timestamp` index; the queue gains exactly that entry |
| OfflineDb.InsertOpElements | lib/offlineDb.ts:71 | the entries after an insertion are the old entries and the new one |
| OfflineDb.InsertOpOrdered | lib/offlineDb.ts:66-162 | inserting an entry with a fresh id keeps the queue in (timestamp, id) order with unique ids |
| OfflineDb.RemoveOp | lib/offlineDb.ts:169-172 | removing an id leaves the queue without any entry of that id |
| OfflineDb.RemoveOpElements | lib/offlineDb.ts:169-172 | exactly the entries with another id are left, in their order |
| OfflineDb.RemoveOpOrdered | lib/offlineDb.ts:169-172 | removing an entry keeps the index order and the unique ids |
| OfflineDb.RemoveOpCount | lib/offlineDb.ts:169-172 | removing an id that is queued drops exactly one entry; an absent id drops none |
| OfflineDb.WatermarkRoundTrip | lib/offlineDb.ts:182-195 | after `setLastSyncTime(t, ts)` the read gives `ts` for non-zero `ts` and none for 0; other tables keep their watermark |
| OfflineDb.Db.constructor | lib/offlineDb.ts:42-82 | the five stores start empty and the queue's key generator starts at 1 |
| OfflineDb.Db.SaveRecordsToCache | lib/offlineDb.ts:85-90 | the records store becomes the old store with the batch put into it; nothing else changes |
| OfflineDb.Db.SaveChildrenToCache | lib/offlineDb.ts:116-121 | the children store becomes the old store with the batch put into it; nothing else changes |
| OfflineDb.Db.SaveIncidentsToCache | lib/offlineDb.ts:134-139 | the incidents store becomes the old store with the batch put into it; nothing else changes |
| OfflineDb.Db.PutRecord | lib/offlineDb.ts:100-108 | adding or updating one record writes it under its id and leaves every other store unchanged |
| OfflineDb.Db.DeleteRecordFromCache | lib/offlineDb.ts:110-113 | only that id leaves the records store; deleting an absent id is a no-op |
| OfflineDb.Db.GetRecordsFromCache | lib/offlineDb.ts:92-98 | with a non-empty child id, exactly the cached records of that child; without one, every record; each once |
| OfflineDb.Db.GetChildrenFromCache | lib/offlineDb.ts:123-126 | exactly the cached children, each once |
| OfflineDb.Db.GetChildFromCache | lib/offlineDb.ts:128-131 | the child stored under the id, or none when the id is absent |
| OfflineDb.Db.GetIncidentsFromCache | lib/offlineDb.ts:141-147 | with a non-empty child id, exactly that child's incidents; without one, every incident |
| OfflineDb.Db.AddPendingOperation | lib/offlineDb.ts:150-162 | stores kind, table, data and the timestamp under the generator's next id, which is never reused |
| OfflineDb.Db.GetPendingOperations | lib/offlineDb.ts:164-167 | returns every queued entry, in non-decreasing timestamp order |
| OfflineDb.Db.ClearPendingOperation | lib/offlineDb.ts:169-172 | removes exactly the entry with that id |
| OfflineDb.Db.ClearAllPendingOperations | lib/offlineDb.ts:174-179 | empties the queue without resetting the key generator |
| OfflineDb.Db.SetLastSyncTime | lib/offlineDb.ts:182-189 | writes the `lastSync-<table>` entry with the timestamp |
| OfflineDb.Db.GetLastSyncTime | lib/offlineDb.ts:191-195 | the stored watermark, with 0 and an absent entry both read as null |
| OfflineDb.Db.ClearStore | lib/offlineDb.ts:203-205 | empties the named store and leaves the other stores as they were |
| OfflineDb.Db.ClearAllCache | lib/offlineDb.ts:198-207 | leaves all five stores empty |
| OfflineDb.SavedBatchRetrievable | lib/offlineDb.ts:85-90 | after a batch is saved, each saved record is retrievable under its id with the last value written for it |
| OfflineRecords.ReplaceId | hooks/useOfflineRecords.ts:113-149 | same length; entries with the id become the server's row, all others are unchanged |
| OfflineRecords.MergeWhere | hooks/useOfflineRecords.ts:134 | same length; `updates` is merged into the entries with the matching id only, all others are unchanged |
| OfflineRecords.RemoveId | hooks/useOfflineRecords.ts:171 | exactly the entries with another id are kept |
| OfflineRecords.FindById | hooks/useOfflineRecords.ts:154 | none iff no entry has the id; otherwise an entry of the list with that id |
| OfflineRecords.WithId | hooks/useOfflineRecords.ts:158-164 | `{ id, ...updates }`: the id key is the update's id when it has one, else `id`; every other key is the update's |
| OfflineRecords.ReplaceFreshHead | hooks/useOfflineRecords.ts:97-113 | when no old entry has the temporary id, the server's row replaces only the new head |
| OfflineRecords.RemoveIdThenFind | hooks/useOfflineRecords.ts:171 | after removal the id is not found, and any other id that was found still is |
| OfflineRecords.RecordsHook.constructor | hooks/useOfflineRecords.ts:18-21 | the list starts empty and loading, with the browser's online flag |
| OfflineRecords.RecordsHook.FetchRecords | hooks/useOfflineRecords.ts:38-79 | no child gives an empty list; online success shows the rows and caches them; offline the child's cached records show; a failed request, a save or a read that throws falls back to reading the cache, and when that read throws too the list stays as the `try` block left it; loading ends |
| OfflineRecords.RecordsHook.CreateRecord | hooks/useOfflineRecords.ts:86-129 | the list gains the new record at its head; an online insert whose row is cached replaces the temporary record by it; offline, or after a failed insert or a cache call that throws, the temporary record is cached and exactly one `create` of the data without the temporary id is queued, so a server row whose caching threw keeps its temporary copy and is queued for a second insert; a throw in the `catch` queues nothing and rejects |
| OfflineRecords.RecordsHook.UpdateRecord | hooks/useOfflineRecords.ts:132-166 | merges at once; an online success whose row is cached shows the server row; a failed request, or a cache call that throws, queues `{id, ...updates}`, even after the server applied the change; offline, caching and queueing happen only when the id was in the list; a throw in the `catch` rejects |
| OfflineRecords.RecordsHook.DeleteRecord | hooks/useOfflineRecords.ts:169-193 | removes the id from the list; an online success deletes it from the cache; a failed request, or a cache call that throws, queues `{id}`, even after the server deleted the row; offline both happen; a throw in the `catch` rejects |
| OfflineRecords.OfflineCreateQueuesData | hooks/useOfflineRecords.ts:117-127 | a create that reaches the queue adds exactly one entry, whose payload has neither id nor creation time |
| RecordTypes.MergeEmpty | hooks/useOfflineRecords.ts:134 | spreading the empty object changes nothing |
| RecordTypes.MergeIdempotent | hooks/useOfflineRecords.ts:134 | spreading the same update twice equals spreading it once |
| RecordTypes.MergeCombine | hooks/useOfflineRecords.ts:134-156 | two spreads in turn equal one spread of their combination |
| RecordTypes.MergeKeepsIdentity | hooks/useOfflineRecords.ts:134 | an update without an `id` keeps the record's id; a record's full data replaces all of its data |
| OfflineSync.ReplayCall | hooks/useOfflineSync.ts:76-124 | a create inserts the payload; an update sends the payload without `id` to row `id`; a delete targets `data.id` |
| OfflineSync.Replays | hooks/useOfflineSync.ts:74-86 | one request per fetched operation, in the fetched order |
| OfflineSync.Failures | hooks/useOfflineSync.ts:88-94 | the operations left after the drain are at most the fetched ones |
| OfflineSync.FailuresSubset | hooks/useOfflineSync.ts:88-94 | every operation left was in the fetched queue |
| OfflineSync.FailuresExactly | hooks/useOfflineSync.ts:88-94 | an operation stays queued iff its attempt did not settle |
| OfflineSync.StaysQueued | hooks/useOfflineSync.ts:76-94 | after a drain an operation is still queued iff its replay failed or clearing it threw |
| OfflineSync.FailuresOrdered | hooks/useOfflineSync.ts:88-94 | the operations left keep the index order and the unique ids |
| OfflineSync.FailuresExtremes | hooks/useOfflineSync.ts:88-94 | all replays succeeding empties the queue; none succeeding leaves it unchanged |
| OfflineSync.NewestRecords | hooks/useOfflineSync.ts:148-153 | at most 500 of the child's records, newest first, each from the table and no more often than the table holds it |
| OfflineSync.NewestRecordsAreNewest | hooks/useOfflineSync.ts:152-153 | a record left out by the limit is no newer than any of the 500 kept |
| OfflineSync.SyncHook.constructor | hooks/useOfflineSync.ts:12-15 | starts online-unaware, not syncing, with a pending count of 0 |
| OfflineSync.SyncHook.UpdatePendingCount | hooks/useOfflineSync.ts:42-49 | the pending count becomes the queue's length, and stays when reading the queue throws |
| OfflineSync.SyncHook.SyncPendingOperations | hooks/useOfflineSync.ts:60-105 | offline or already syncing does nothing; a queue read that throws ends the sync; otherwise each operation gets one replay in order, exactly those whose replay and clearing both completed leave the queue, the count is the remaining length (unchanged for an empty queue or a count read that throws), syncing ends, and the cached data is untouched |
| OfflineSync.SyncHook.Drain | hooks/useOfflineSync.ts:74-95 | the requests are the replays of the queue; the queue keeps exactly the operations whose replay failed or whose clearing threw, which are replayed again next time; the stores of records, children and incidents are untouched |
| OfflineSync.SyncHook.SyncFromServer | hooks/useOfflineSync.ts:127-177 | children, then the newest 500 records, then incidents are upserted; each watermark is stamped only after its table was saved; a children or records error, or a local write that throws, stops the rest, an incidents error is skipped; no cached key is ever removed |
| OfflineSync.ClearingOneOperation | hooks/useOfflineSync.ts:89 | clearing a settled operation removes it and nothing else from the queue |
| OfflineSync.KeepingOneOperation | hooks/useOfflineSync.ts:91-94 | a failed replay, or a clearing that throws, leaves the queue as it was |
| IntelligentAnalysis.Recent | lib/intelligentAnalysis.ts:28-33 | a record is recent iff it was created after the instant one week before `now` |
| IntelligentAnalysis.FeverRecords | lib/intelligentAnalysis.ts:95-96 | exactly the records with a non-zero temperature that the fever test accepts |
| IntelligentAnalysis.FeverDaysMembers | lib/intelligentAnalysis.ts:102-104 | a day is a fever day iff some fever record was created on it |
| IntelligentAnalysis.FeverDaysSameElements | lib/intelligentAnalysis.ts:102-104 | the fever days depend only on which records are present, not on their order |
| IntelligentAnalysis.CountDaysWithFever | lib/intelligentAnalysis.ts:369-377 | the number of distinct fever days is 0 iff no record is a fever record, and at most the number of fever records |
| IntelligentAnalysis.FeverRecordsSameElements | lib/intelligentAnalysis.ts:369-377 | reordering the records (as the inactivity rule's sort does) does not change the fever-day count |
| IntelligentAnalysis.FeverPatternMeaning | lib/intelligentAnalysis.ts:94-131 | the alert fires iff fevers fell on two adjacent days (priority 5); otherwise the warning fires iff fevers fell on three or more days (priority 4) |
| IntelligentAnalysis.AnalyzeFeverPattern | lib/intelligentAnalysis.ts:94-131 | the method (filter, day set, longest run) yields exactly the fever-pattern insight |
| IntelligentAnalysis.FeverInsight | lib/intelligentAnalysis.ts:108-128 | an insight exactly from two consecutive days or three fever days on; the alert (priority 5) exactly for two consecutive days, else the warning (priority 4) |
| IntelligentAnalysis.MedicationFrequency | lib/intelligentAnalysis.ts:134-164 | an insight iff three or more medications; a warning of priority 3 iff five or more, else a notice of priority 2 |
| IntelligentAnalysis.SymptomTypesOf | lib/intelligentAnalysis.ts:168 | the listed types are exactly those of the symptom records that have a type |
| IntelligentAnalysis.RecurrentPatternMeaning | lib/intelligentAnalysis.ts:167-211 | the recurrent-symptom insight appears iff some type occurs three or more times, and names a type no other type outnumbers, with its count |
| IntelligentAnalysis.AnalyzeRecurrentSymptoms | lib/intelligentAnalysis.ts:172-211 | counting into a table, sorting by descending count and taking the head yields exactly the recurrent-symptom insight |
| IntelligentAnalysis.Readings | lib/intelligentAnalysis.ts:215-217 | exactly the records with a temperature (0 included) |
| IntelligentAnalysis.TemperatureTrendMeaning | lib/intelligentAnalysis.ts:214-257 | "normalising" never fires; "rising" (priority 4) fires iff there are three readings, newest first, with threshold <= newest <= middle <= oldest |
| IntelligentAnalysis.SevereHighFever | lib/intelligentAnalysis.ts:261-271 | among the severe records, one is a high fever iff some symptom record is one |
| IntelligentAnalysis.SevereSymptoms | lib/intelligentAnalysis.ts:260-286 | an alert iff two or more symptom records are vomiting, diarrhoea or a reading of at least 39.5; the text names high fever iff one of them is such a reading |
| IntelligentAnalysis.Improvement | lib/intelligentAnalysis.ts:289-317 | a success iff no symptom in the last three days and at least three in the four days before |
| IntelligentAnalysis.InactivityMeaning | lib/intelligentAnalysis.ts:320-341 | the notice fires iff there are records and every one is at least seven whole days old |
| IntelligentAnalysis.CheckInactivity | lib/intelligentAnalysis.ts:320-341 | the caller's array ends sorted newest first, and the result is the inactivity insight of the original records |
| IntelligentAnalysis.RuleIds | lib/intelligentAnalysis.ts:108-337 | each rule yields only its own ids, with priorities between 1 and 5 |
| IntelligentAnalysis.CandidatesShape | lib/intelligentAnalysis.ts:39-65 | the seven rules give at most seven insights, no two with the same id, priorities 1 to 5 |
| IntelligentAnalysis.Temperatures | lib/intelligentAnalysis.ts:68-70 | at most one temperature per record |
| IntelligentAnalysis.AverageTemperature | lib/intelligentAnalysis.ts:71-73 | none iff no record has a temperature; otherwise the average times the count is the sum |
| IntelligentAnalysis.AnalyzeRecords | lib/intelligentAnalysis.ts:25-91 | the insights are the seven rules' outputs in rule order, stably sorted by descending priority; the statistics are the total, the week's symptom and medication counts, the average and the fever-day count; the array ends sorted newest first |
| ConsecutiveDays.RunBounded | lib/intelligentAnalysis.ts:345-367 | a run ending at a day has no more days than the set has up to that day |
| ConsecutiveDays.LongestRunExists | lib/intelligentAnalysis.ts:345-367 | every non-empty list of days has a longest run |
| ConsecutiveDays.LongestRun | lib/intelligentAnalysis.ts:345-367 | the length of the longest run of consecutive days of a non-empty list |
| ConsecutiveDays.LongestRunAtLeastTwo | lib/intelligentAnalysis.ts:108 | the longest run has two or more days iff two of the days are adjacent |
| ConsecutiveDays.DayStarts | lib/intelligentAnalysis.ts:349 | each date is mapped to the start of its day |
| ConsecutiveDays.DayStartGap | lib/intelligentAnalysis.ts:356-363 | between two day starts, a gap of exactly one day means adjacent days, a longer one a later day, a shorter one the same day |
| ConsecutiveDays.SortedDaysCover | lib/intelligentAnalysis.ts:348-350 | a sorted permutation of the day starts covers exactly the days of the dates |
| ConsecutiveDays.FindConsecutiveDays | lib/intelligentAnalysis.ts:345-367 | 0 for no dates; otherwise the longest run of consecutive calendar days, between 1 and the number of dates |
| ConsecutiveDays.LongestChain | lib/intelligentAnalysis.ts:352-364 | the loop over the sorted day starts returns the highest run ending at any of them, reached at some position |
| ConsecutiveDays.ScoreSteps | lib/intelligentAnalysis.ts:356-363 | the run at the first sorted day is one; a one-day gap extends the run, a longer gap restarts it at one, the same day keeps it |
| SymptomTally.Occurrences | lib/intelligentAnalysis.ts:173-178 | a type occurs at most as often as the list is long |
| SymptomTally.DistinctElements | lib/intelligentAnalysis.ts:173-181 | the table's keys are exactly the types of the list, each once |
| SymptomTally.Tallies | lib/intelligentAnalysis.ts:173-178 | one entry per distinct type in first-seen order, with its number of occurrences |
| SymptomTally.TalliesStep | lib/intelligentAnalysis.ts:174-178 | counting one more symptom into the table gives the table of the longer list |
| SymptomTally.FirstMostIsFirstMax | lib/intelligentAnalysis.ts:181-182 | the chosen entry has the highest count and every entry before it a lower one |
| SymptomTally.FirstMostIsSortHead | lib/intelligentAnalysis.ts:181-182 | the chosen entry is the head of the entries sorted by descending count |
| SymptomTally.MostFrequentIsMostFrequent | lib/intelligentAnalysis.ts:181-184 | the most frequent type occurs as often as its count says, no type occurs more often, and ties go to the type seen first |
| HealthMeter.CountKind | components/HealthMeter.tsx:44-46 | an insight kind is counted at most once per insight |
| HealthMeter.GetHealthStatus | components/HealthMeter.tsx:43-94 | the score is one of 40, 65, 85 and 100 |
| HealthMeter.HealthStatusMeaning | components/HealthMeter.tsx:49-94 | alert (40) iff two or more alerts; attention (65) iff one alert, or none and two or more warnings; good (85) iff none of those and some insight; excellent (100) iff no insight |
| HealthMeter.AttentionDescription | components/HealthMeter.tsx:61-66 | the attention text counts alerts plus warnings (at least one), "ponto" for exactly one and "pontos" otherwise |
| HealthMeter.ScoreNeverRises | components/HealthMeter.tsx:49-94 | one more insight of any kind never raises the score |
| HealthMeter.StatusScoreMonotone | components/HealthMeter.tsx:49-94 | more alerts, warnings or insights never give a higher score |
| GenerateReport.PartitionMeaning | lib/generateReport.ts:71-82 | a section lists exactly the input records of its kind when the report shows it, none otherwise; with both sections shown every record lands in one |
| GenerateReport.Temperatures | lib/generateReport.ts:85-87 | exactly the truthy temperatures of the symptoms |
| GenerateReport.Max | lib/generateReport.ts:88 | the maximum is one of the values and no value exceeds it |
| GenerateReport.PeakTemp | lib/generateReport.ts:85-88 | none iff no symptom has a truthy temperature; otherwise a non-zero temperature of some symptom that none exceeds |
| GenerateReport.FebrileRemark | lib/generateReport.ts:196-212 | the summary ends with the fever remark iff the report is medical and its peak is at least 37.8 °C |
| GenerateReport.SymptomPlural | lib/generateReport.ts:205-208 | outside a medical report the summary gives both counts, with "sintoma" only for exactly one |
| GenerateReport.Truncate | lib/generateReport.ts:171-176 | a text within the limit is kept; a longer one keeps its first n characters followed by "..." |
| GenerateReport.ChildBoxBounds | lib/generateReport.ts:170-176 | the allergies text is at most 63 characters and the conditions text at most 53; short non-empty texts are shown intact |
| GenerateReport.NotesCell | lib/generateReport.ts:290-298 | no notes cell iff the record has no notes; otherwise the notes truncated at 60 |
| GenerateReport.AgeCases | lib/generateReport.ts:39-58 | under a year the age is months ("1 mês" for one); one year and no months is "1 ano"; one year and some months starts "1 ano e "; later ages start with the years |
| GenerateReport.Slug | lib/generateReport.ts:411-413 | the slug has no white space and is never longer than the name |
| GenerateReport.WhitespaceRun | lib/generateReport.ts:413 | the run is all white space and ends at a non-space or the end |
| GenerateReport.SlugLowers | lib/generateReport.ts:411-413 | a name without white space is only lowered |
| GenerateReport.SlugIdempotent | lib/generateReport.ts:411-413 | slugging a slug changes nothing |
| GenerateReport.SlugIsLower | lib/generateReport.ts:411-413 | lowering a slug changes nothing |
| GenerateReport.EscapeField | lib/generateReport.ts:434-439 | a field with no comma, quote or newline is written unchanged |
| GenerateReport.CsvFields | lib/generateReport.ts:423-431 | every record gives five fields |
| GenerateReport.CsvRows | lib/generateReport.ts:422-431 | one row per record, in input order |
| GenerateReport.CsvRowShape | lib/generateReport.ts:423-431 | each row has five fields: "Sintoma" or "Medicação"; the formatted temperature when truthy, else the details; an empty notes field iff there are no notes |
| GenerateReport.CsvTable | lib/generateReport.ts:420-442 | the header row, then one row per record in input order |
| GenerateReport.HeaderLine | lib/generateReport.ts:420 | the header literal is the header row written as a line |
| GenerateReport.EscapeRow | lib/generateReport.ts:434-439 | every field of the row is escaped, in order |
| GenerateReport.ReadEscapedField | lib/generateReport.ts:434-439 | reading an escaped field back returns the field and stops at the separator after it |
| GenerateReport.ReadRowLine | lib/generateReport.ts:441 | reading a written line back returns its fields and stops after its newline |
| GenerateReport.ReadRowField | lib/generateReport.ts:441 | an escaped field followed by a newline is read as the last field of its row; followed by a comma, the row goes on with what follows |
| GenerateReport.ReadRowsLines | lib/generateReport.ts:420-442 | a text of written lines reads back as exactly its rows |
| GenerateReport.GenerateCsv | lib/generateReport.ts:417-442 | the text is the header line, then one escaped line per record; reading it back with the LF-line reader gives the header and exactly the record rows |
| ShareReport.GenerateReportText | lib/shareReport.ts:14-75 | appending line by line gives exactly the report text: header, date line, total, the symptom section, the medication section, the footer |
| ShareReport.AppendSection | lib/shareReport.ts:34-70 | a section is appended only for a non-empty list: its head with the count, then its entries |
| ShareReport.AppendEntries | lib/shareReport.ts:37-69 | the loop appends the entries of the list, numbered from 1 in list order |
| ShareReport.ReportFrame | lib/shareReport.ts:17-72 | the text opens with the title and the child's name and always closes with the footer |
| ShareReport.DateLineCases | lib/shareReport.ts:20-26 | the period line appears iff both dates are given, the single-date line iff only the start is, and no line without a start |
| ShareReport.SectionPresence | lib/shareReport.ts:34-58 | a section is present iff its list is non-empty, and then starts with its head and count |
| ShareReport.EntryNumbering | lib/shareReport.ts:37-62 | the entries of the first k records are followed by the entry of record k, numbered k + 1 |
| ShareReport.EntriesPrefix | lib/shareReport.ts:37-62 | the entries of the first m records begin the entries of all of them |
| ShareReport.EntryLayout | lib/shareReport.ts:46-68 | each entry starts with its number and date-time, and has a notes line iff the record has notes |
| ShareReport.SymptomLines | lib/shareReport.ts:39-44 | a symptom shows its type's label when typed, else its title; its temperature and "°C" when truthy, else its details |
| ShareReport.EmailSubject | lib/shareReport.ts:97-102 | the subject names the child, and adds the period only when both dates are given |
| ShareReport.Fevers | lib/shareReport.ts:135 | exactly the symptom records of type fever |
| ShareReport.SummaryMeaning | lib/shareReport.ts:131-151 | symptoms and medications together are all records, and the fever block closes the summary iff some symptom is a fever |
| RecordForm.DerivedTitleIsName | components/RecordForm.tsx:66 | stripping the emoji and the space from a symptom's label leaves the symptom's plain name |
| RecordForm.InsertData | components/RecordForm.tsx:45-76 | the base fields with empty notes, child and photo sent as null; the reminder fields iff a medication has its reminder on and an interval; for a typed symptom the derived title, and for a fever with a temperature that temperature and "°C" as details, else the notes or the title as details |
| EditRecordModal.FormFromRecord | components/EditRecordModal.tsx:45-56 | the form copies title and details; notes and temperature are "" iff absent; the photo is kept iff non-empty |
| EditRecordModal.UpdateData | components/EditRecordModal.tsx:65-76 | title, details, notes and photo always, with "" notes and photo sent as null; type and temperature iff the record is a symptom, "" temperature as null |
| EditRecordModal.UnchangedFormKeepsRecord | components/EditRecordModal.tsx:45-76 | submitting an untouched form leaves the record as it was, when its notes and photo are not "" and its temperature text reads back |
| EditRecordModal.Modal.constructor | components/EditRecordModal.tsx:36-43 | the dialog starts with an empty form |
| EditRecordModal.Modal.OnRecordChange | components/EditRecordModal.tsx:45-56 | a new record refills the form; a null record leaves the form |
| EditRecordModal.Modal.SetForm | components/EditRecordModal.tsx:36 | the form holds the typed values and the record is kept |
| EditRecordModal.Modal.Submit | components/EditRecordModal.tsx:58-95 | nothing is sent iff there is no record, which is exactly when the dialog does not render; otherwise the record's id and its update; on success the dialog asks to close and the page refreshes, on failure the alert shows and the dialog stays open; loading ends |
| ProfilePage.FormFromRow | app/profile/page.tsx:87-105 | no row gives the empty profile; otherwise each null column becomes "", and the age text is "" iff the age is null and otherwise reads back as the age |
| ProfilePage.AgeText | app/profile/page.tsx:90-176 | "" iff there is no age; otherwise a text whose number is the age |
| ProfilePage.NumberOfDigits | app/profile/page.tsx:92-156 | the decimal text of an integer is already trimmed and reads back as that integer |
| ProfilePage.Set | app/profile/page.tsx:119-124 | the changed field holds the new value and every other field is kept |
| ProfilePage.ValidateMeaning | app/profile/page.tsx:136-146 | a blank name is refused first, then an age that is a negative number; a form is accepted iff neither holds |
| ProfilePage.TrimOrNull | app/profile/page.tsx:157-162 | null exactly when the text is all white space; otherwise the trimmed text, which is not empty and neither starts nor ends with white space |
| ProfilePage.TrimOrNullSnapshot | app/profile/page.tsx:157-181 | a text that went through the payload and the snapshot gives the same payload entry again |
| ProfilePage.AgeRoundTrip | app/profile/page.tsx:156-176 | the payload age survives the round trip through the snapshot's text |
| ProfilePage.SnapshotRoundTrip | app/profile/page.tsx:153-185 | saving the snapshot of a saved form again sends the very same payload |
| ProfilePage.ReloadGivesSnapshot | app/profile/page.tsx:87-182 | reloading the stored row gives the snapshot taken after saving, except that an age that did not parse is shown as "NaN" after saving and "" after reloading |
| ProfilePage.Editor.constructor | app/profile/page.tsx:54-60 | the page starts with the empty form and snapshot and no messages |
| ProfilePage.Editor.Load | app/profile/page.tsx:74-114 | a successful fetch makes the row's form both the form and the snapshot, so the form is not dirty; a failure keeps both and sets the error message |
| ProfilePage.Editor.HandleChange | app/profile/page.tsx:119-124 | only the edited field of the form changes |
| ProfilePage.Editor.HandleReset | app/profile/page.tsx:126-130 | the form returns to the snapshot, so it is not dirty, and both messages are cleared |
| ProfilePage.Editor.HandleSubmit | app/profile/page.tsx:132-195 | nothing is sent without a user or for a refused form (which sets the message); otherwise the payload is sent, and on success its snapshot becomes form and snapshot with the success message, while a failure keeps the form and shows the error text |
| InviteUserDialog.LocalCheckMeaning | components/InviteUserDialog.tsx:43-52 | an empty address or one without "@" is refused first; the self-invite refusal holds iff the address equals the user's, ignoring case; an address passes iff it has "@" and is not the user's |
| InviteUserDialog.SelfCheckIgnoresCase | components/InviteUserDialog.tsx:49 | the self-invite check does not depend on the case of the user's address |
| InviteUserDialog.PendingFor | components/InviteUserDialog.tsx:55-60 | exactly the pending invites of the child for the lowercased address |
| InviteUserDialog.SingleMatchBlocks | components/InviteUserDialog.tsx:55-66 | a pending invite for the child and address blocks a new one when it is the only match |
| InviteUserDialog.TwoMatchesDoNotBlock | components/InviteUserDialog.tsx:61-63 | with two matching pending invites `.single()` finds none, so nothing blocks a third |
| InviteUserDialog.SingleMatchCount | components/InviteUserDialog.tsx:55-61 | when only one kind of row matches, the number of matches is its number of copies |
| InviteUserDialog.MakePayload | components/InviteUserDialog.tsx:69-77 | the inserted row holds the lowercased address, the chosen role and the child; an empty message is sent as null |
| InviteUserDialog.PayloadEmailIsLower | components/InviteUserDialog.tsx:73 | the saved address is already lower case |
| InviteUserDialog.Dialog.constructor | components/InviteUserDialog.tsx:29-35 | the dialog starts closed and idle with the empty form |
| InviteUserDialog.Dialog.SetForm | components/InviteUserDialog.tsx:31 | the form holds the typed values; the dialog's other state is kept |
| InviteUserDialog.Dialog.SetOpen | components/InviteUserDialog.tsx:97 | only the open flag changes |
| InviteUserDialog.Dialog.HandleSubmit | components/InviteUserDialog.tsx:37-94 | the duplicate query is made iff the local checks pass, else their alert; the insert is sent iff no duplicate is found, with the payload; a failure keeps the form and alerts; a success alerts with the address, resets the form, closes the dialog and notifies the callback when given; loading always ends |
| CreateIncidentDialog.TitleMissingMeaning | components/CreateIncidentDialog.tsx:44 | a title is missing iff it is all white space |
| CreateIncidentDialog.PayloadTitleShape | components/CreateIncidentDialog.tsx:44-57 | a saved title is non-empty and has no white space at either end |
| CreateIncidentDialog.PayloadStable | components/CreateIncidentDialog.tsx:54-61 | the payload of the payload's own texts is the same payload |
| CreateIncidentDialog.Dialog.constructor | components/CreateIncidentDialog.tsx:33-39 | the dialog starts closed and idle with the empty form |
| CreateIncidentDialog.Dialog.SetForm | components/CreateIncidentDialog.tsx:35 | the form holds the typed values; the dialog's other state is kept |
| CreateIncidentDialog.Dialog.HandleSubmit | components/CreateIncidentDialog.tsx:41-75 | a missing title is refused before anything else; the insert is sent iff the title is given and there is a user; without a user or on failure the error alert; `onIncidentCreated` runs iff the insert succeeds, and then the form resets and the dialog closes |
| IncidentCard.GetSeverityConfig | components/IncidentCard.tsx:34-62 | "high" and "medium" get their own styling and every other value, "low" included, the low styling, each iff |
| IncidentCard.GetStatusConfig | components/IncidentCard.tsx:64-86 | "resolved" and "monitoring" get their own styling and every other value, "active" included, the active styling, each iff |
| IncidentCard.IncidentCounts | components/IncidentCard.tsx:93-95 | the linked records are exactly those carrying the incident's id, and the symptom and medication counts add up to their number |
| IncidentCard.SymptomsWordPlural | components/IncidentCard.tsx:182 | "sintoma" iff the count is one |
| IncidentCard.MedicationsWordPlural | components/IncidentCard.tsx:187 | "medicação" iff the count is one |
| IncidentCard.LinkedHeadingPlural | components/IncidentCard.tsx:263 | the heading gives the count, with the singular iff it is one |
| IncidentCard.UpdateFor | components/IncidentCard.tsx:108-115 | the update carries the new status, and a resolution time (the click's time) iff the incident is being resolved without one |
| IncidentCard.ResolveKeepsFirstTime | components/IncidentCard.tsx:111-115 | resolving stamps the first resolution time only; resolving again changes nothing |
| IncidentCard.ButtonsRule | components/IncidentCard.tsx:220-250 | resolve shows iff the incident is not resolved; a PDF button shows iff it has linked records, never both forms at once, the in-grid one only when resolved |
| IncidentCard.ExportArgsOf | components/IncidentCard.tsx:133-140 | the export gets the linked records, "Incidente: " and the title, the start time, and the resolution time or else now |
| IncidentCard.Card.constructor | components/IncidentCard.tsx:30-32 | the card starts collapsed and idle |
| IncidentCard.Card.ToggleExpanded | components/IncidentCard.tsx:204 | only the expanded flag flips |
| IncidentCard.Card.HandleStatusChange | components/IncidentCard.tsx:108-131 | the update sent is UpdateFor; an alert iff it fails, the parent's refresh iff it succeeds; updating always ends |
| IncidentsPanel.PartitionIncidents | components/IncidentsPanel.tsx:54-55 | every incident is in exactly one of the two lists, as often as fetched |
| IncidentsPanel.PartitionKeepsOrder | components/IncidentsPanel.tsx:54-55 | both lists keep the fetched order |
| IncidentsPanel.ViewRules | components/IncidentsPanel.tsx:57-164 | the empty state shows iff loaded with no incident; the badge iff some incident is active, with their number; resolved incidents are listed only with the toggle open |
| IncidentsPanel.FetchedView | components/IncidentsPanel.tsx:26-89 | once loading ends, the empty state shows exactly when the fetch failed, returned no data or returned no row; otherwise the active list is drawn from the returned rows |
| MedicationReminders.DueRemindersMeaning | components/MedicationReminders.tsx:37-44 | a record is listed iff it is a medication of the child with the reminder on and its next dose at or before now, each as often as in the table, in ascending dose order |
| MedicationReminders.TimeStatusBands | components/MedicationReminders.tsx:92-105 | under 30 elapsed minutes "Agora!" in red; from 30 to 59 the minutes; from 60 on the whole hours, rounded down |
| MedicationReminders.FutureDoseIsNow | components/MedicationReminders.tsx:95-98 | a dose due in the future is shown as due now |
| MedicationReminders.BandMonotone | components/MedicationReminders.tsx:92-105 | an earlier dose never shows as less late |
| MedicationReminders.CardShowsWhenDue | components/MedicationReminders.tsx:84-90 | after a successful fetch the card shows exactly when the table holds a due dose of the child; nothing shows while loading |
| MedicationReminders.PendingTextMeaning | components/MedicationReminders.tsx:115 | the count line starts with the number of doses, read back from its digits, and uses the singular exactly for one dose |
| MedicationReminders.DosePayload | components/MedicationReminders.tsx:56-71 | the new dose is a medication with the reminder's title, details and reminder settings, the fixed note, and the saved child or null |
| HomePage.FirstActive | components/HomePage.tsx:63 | the first active child, or none iff no child is active |
| HomePage.NextChildId | components/HomePage.tsx:61-65 | a chosen id is never empty |
| HomePage.NextChildRule | components/HomePage.tsx:56-65 | the saved id when some child has it, else the first active child's id, else the first child's; a chosen id always belongs to some child |
| HomePage.SomeChildIsChosen | components/HomePage.tsx:61-65 | with non-empty ids, a non-empty list always yields a selection |
| HomePage.TodayRecords | components/HomePage.tsx:118-127 | a record is kept iff it was created from local midnight up to the next midnight excluded |
| HomePage.TodayIsSameDay | components/HomePage.tsx:118-127 | a record is today's iff it falls on the same day as now |
| HomePage.DayBounds | components/HomePage.tsx:119-126 | an instant lies between today's midnight and the next iff it is on today |
| HomePage.Home.constructor | components/HomePage.tsx:23-27 | the page starts empty and loading, with the saved selection when there is one |
| HomePage.Home.FetchChildren | components/HomePage.tsx:29-85 | no session clears the list; a failed request changes nothing; no child clears the list, ends loading and forgets the saved selection; otherwise the next child is selected and remembered |
| HomePage.Home.FetchRecords | components/HomePage.tsx:87-136 | without a session the list empties; a failure keeps it; otherwise it holds today's fetched rows; loading and refreshing end |
| HomePage.Home.StartRefresh | components/HomePage.tsx:91-140 | only the refreshing flag is set |
| HomePage.Home.HandleChildChange | components/HomePage.tsx:142-145 | the chosen child is selected and remembered; nothing else changes |
| DateFilter.InRangeByDay | app/records/page.tsx:109-115 | an instant lies between the start of the first day and the end of the last day, both included, iff its day lies between theirs |
| DateFilter.FilterByRangeMeaning | app/records/page.tsx:101-119 | without a start date every record is kept; with one, a record is kept iff its day lies between the start day and the end day, or the start day alone when there is no end |
| DateFilter.SingleDayRange | app/report/page.tsx:116-135 | a range with only a start date keeps exactly the records of that day |
| DateFilter.FilterByRangeKeepsOrder | app/report/page.tsx:122-132 | the kept records keep their order |
| RecordsPage.DefaultChild | app/records/page.tsx:60-66 | the saved id when non-empty and some child has it, else the first child's id; always a listed child |
| RecordsPage.ChildName | app/records/page.tsx:125 | never empty; "Criança" when no child is selected |
| RecordsPage.ChildNameOfFirstMatch | app/records/page.tsx:125 | the name shown is the first matching child's, or "Criança" when that name is empty |
| RecordsPage.Page.constructor | app/records/page.tsx:21-23 | the page starts empty and loading, with no selection and no range |
| RecordsPage.Page.FetchChildren | app/records/page.tsx:35-70 | no session clears the list; a failure changes nothing; no child clears the list and the selection and forgets the saved one; otherwise the default child is selected |
| RecordsPage.Page.FetchRecords | app/records/page.tsx:72-99 | nothing happens without a selection; without a session the list empties; a failure keeps it; otherwise it holds the fetched rows; loading ends |
| RecordsPage.Page.FilterRecords | app/records/page.tsx:31-119 | the shown records are the range filter of the records |
| RecordsPage.Page.SetDateRange | app/records/page.tsx:31-33 | only the range changes |
| RecordsPage.Page.HandleClearFilter | app/records/page.tsx:121-123 | the range is cleared, so the next filter shows every record |
| ReportPage.InsertByName | app/report/page.tsx:62 | inserting adds exactly the one child |
| ReportPage.InsertByNameSorted | app/report/page.tsx:62 | inserting into a list ordered by name keeps it ordered |
| ReportPage.SortByName | app/report/page.tsx:62 | a permutation of the input ordered by name |
| ReportPage.ActiveChildrenMeaning | app/report/page.tsx:58-62 | only active children are listed, each as in the table, ordered by name |
| ReportPage.FindChild | app/report/page.tsx:71-110 | a found child is listed with that id; none iff no child has it |
| ReportPage.Page.constructor | app/report/page.tsx:28-44 | the page starts empty and loading, with the default name and the saved selection |
| ReportPage.Page.FetchChildren | app/report/page.tsx:56-82 | a failure changes nothing; otherwise the active children by name are listed, and the saved child, when listed, or else the first child is selected with its name; with no child the selection and the name stay |
| ReportPage.Page.FetchRecords | app/report/page.tsx:84-106 | the fetched rows, or the old list on failure; loading ends |
| ReportPage.Page.HandleChildChange | app/report/page.tsx:108-114 | the chosen id is selected; the name follows only when the child is listed |
| ReportPage.Page.SetDateRange | app/report/page.tsx:206-209 | only the range changes |
| ReportPage.Page.FilterRecords | app/report/page.tsx:52-135 | the kept records are the range filter of the records |
| ReportPage.Page.Export | app/report/page.tsx:137-153 | both exports get the kept records, the child's name, the start date, and the end date or else the start date |
| ReportPage.ExportDisabledMeaning | app/report/page.tsx:221-229 | with the kept records filtered by the range, both exports are disabled exactly when no record falls on a day of the range, or without a start day when there is no record |
| RecordList.InitialsRule | components/RecordList.tsx:38-45 | "?" for a missing or empty address; without a dot in the local part, the first two characters of the address uppercased; with a local part `first.last…` of non-empty parts, their two first characters uppercased |
| RecordList.InitialsAreUpperCase | components/RecordList.tsx:38-45 | initials never hold a lower-case letter, and for a dotless local part they are one or two characters |
| RecordList.EmptyPartsThrow | components/RecordList.tsx:41-42 | for `.@x` both parts are empty, `undefined + undefined` is NaN and the initials cannot be computed |
| RecordList.ToUpperNoLowerCase | components/RecordList.tsx:42-44 | `toUpperCase` leaves no lower-case ASCII letter |
| RecordList.AvatarColor | components/RecordList.tsx:47-63 | grey exactly for a missing address, otherwise one of the eight palette colours |
| RecordList.CodeSumAppend | components/RecordList.tsx:59-61 | the character-code sum of a concatenation is the sum of the parts' sums |
| RecordList.AvatarColorIgnoresOrder | components/RecordList.tsx:59-62 | swapping the two halves of an address keeps its avatar colour |
| RecordList.TitleCells | components/RecordList.tsx:334-352 | an untyped record shows its title alone; a typed one shows the label, and its title under it exactly when the title is not the symptom's plain name; the title is always on screen |
| RecordList.Subtitle | components/RecordList.tsx:340-348 | a line under the label, when shown, is the record's own title |
| RecordList.NotesText | components/RecordList.tsx:360 | the notes cell is never empty: the notes, or "-" when they are absent or empty |
| RecordList.TenthsReadBack | components/RecordList.tsx:355-357 | every temperature's text reads back as that temperature |
| RecordList.IntTextIsNotFixed | components/RecordList.tsx:355-357 | a whole-degree temperature is written without a decimal point |
| RecordList.DetailsShowTemperature | components/RecordList.tsx:355-357 | with a temperature the details cell is a text followed by "°C" that reads back as that temperature; without one it is the details text |
| ManageChildAccess.DisplayNameRule | components/ManageChildAccess.tsx:90-108 | "Você" for oneself, else the first non-empty of display name, full name and e-mail, else "Usuário " with at most eight characters of the id and "..."; never empty |
| ManageChildAccess.RoleLabelPassThrough | components/ManageChildAccess.tsx:165-176 | owner, editor and viewer get their labels; a role is shown unchanged exactly when it is none of them |
| ManageChildAccess.MyAccess | components/ManageChildAccess.tsx:66 | the found row belongs to the signed-in user and comes from the list; none is found only when no row is theirs |
| ManageChildAccess.OwnerRule | components/ManageChildAccess.tsx:66-67 | the user is owner exactly when their first row has the owner role |
| ManageChildAccess.SignedOutIsNotOwner | components/ManageChildAccess.tsx:66-67 | without a signed-in user nobody is owner |
| ManageChildAccess.Panel.constructor | components/ManageChildAccess.tsx:43-46 | no accesses, no invites, not owner, loading |
| ManageChildAccess.Panel.FetchData | components/ManageChildAccess.tsx:52-88 | a failed access query keeps everything; otherwise the rows are listed, ownership follows the user's own row, only an owner queries the invites, and a failed invite query keeps the old list; loading ends; the invite dialog is offered exactly to the owner, and the pending-invites card shows to the owner exactly when the invite query returned some invite |
| ManageChildAccess.RevokeRule | components/ManageChildAccess.tsx:235 | nobody sees a revoke button on their own row, and a non-owner sees none at all |
| ManageChildAccess.InviteeNameShown | components/ManageChildAccess.tsx:274 | an invite is named by the invitee's display name or the invited address, and is nameless only when both are empty |
| ManageChildAccess.OwnerControls | components/ManageChildAccess.tsx:203-252 | the pending-invites card shows only with the invite dialog; a non-owner gets no invite dialog, no pending-invites card and no revoke button |
| PendingInvites.Format | components/PendingInvites.tsx:59-68 | every field is kept, the child's name falls back to "Criança" when missing or empty, and the inviter address is empty |
| PendingInvites.FormatAll | components/PendingInvites.tsx:59-68 | one formatted invite per row, in order |
| PendingInvites.FormattedNamesNonEmpty | components/PendingInvites.tsx:62 | every listed invite names a child |
| PendingInvites.RoleLabelPassThrough | components/PendingInvites.tsx:128-148 | a role is shown unchanged exactly when it is neither editor nor viewer, and exactly the relabelled roles get a colour of their own |
| PendingInvites.RoleColor | components/PendingInvites.tsx:139-148 | the editor colour exactly for editors, the viewer colour exactly for viewers, the fallback otherwise |
| PendingInvites.DaysRemainingMeaning | components/PendingInvites.tsx:150-154 | the days shown are the fewest whole days covering the time left; an invite not yet expired shows at least one day |
| PendingInvites.LastDayShowsOne | components/PendingInvites.tsx:150-154 | with at most one day left an unexpired invite shows one day |
| PendingInvites.DaysRemainingMonotone | components/PendingInvites.tsx:150-154 | a later expiry never shows fewer days |
| PendingInvites.Card.constructor | components/PendingInvites.tsx:24-26 | no invites, loading, nothing being processed |
| PendingInvites.Card.FetchInvites | components/PendingInvites.tsx:28-76 | nothing is queried without an address; a failed query keeps the list; otherwise the rows are formatted; loading ends after a query; after a successful query the card shows exactly when some invite row came back |
| PendingInvites.Card.HandleAccept | components/PendingInvites.tsx:78-102 | a failure, an acceptance (followed by a refetch and reload) and a refusal each raise their own alert; processing ends |
| PendingInvites.Card.HandleReject | components/PendingInvites.tsx:104-126 | nothing happens unless confirmed; then success alerts and refetches, failure alerts; processing ends |
| PendingInvites.CardRules | components/PendingInvites.tsx:156-220 | the card shows only after loading with some invite; the buttons of at most one invite id are disabled at a time, and none while nothing is processed |
| ImageUpload.Rejection | components/ImageUpload.tsx:24-33 | a file passes exactly when its type starts with "image/" and it has at most 5 MiB; the type is checked first |
| ImageUpload.SizeBoundary | components/ImageUpload.tsx:30 | exactly 5 MiB passes, one byte more is too large |
| ImageUpload.JoinLast | components/ImageUpload.tsx:46 | joining parts is joining all but the last, a separator and the last |
| ImageUpload.ExtensionMeaning | components/ImageUpload.tsx:46 | the extension has no dot; it is the whole name when the name has no dot, else the name is a stem, a dot and the extension |
| ImageUpload.Picker.constructor | components/ImageUpload.tsx:15-17 | not uploading; the current image, when there is one, is the preview |
| ImageUpload.Picker.HandleFileSelect | components/ImageUpload.tsx:19-75 | no file or a rejected file changes nothing (the rejection is alerted); an accepted one is stored under time, token and extension, and its public URL is reported on success; a failed upload is alerted and clears the preview unless the reader finishes later |
| ImageUpload.Picker.HandleRemove | components/ImageUpload.tsx:77-82 | the preview is cleared and the removal callback is called when given |
| ChildSelector.ViewMeaning | components/ChildSelector.tsx:16-51 | the add-child prompt exactly when no child is active; otherwise the options are exactly the active children, each as often as in the input, and the value is the selection when it is non-empty |
| ChildSelector.OptionsKeepOrder | components/ChildSelector.tsx:16 | the active children of a concatenation are those of each part, in order |
| ChildSelector.InactiveNeverListed | components/ChildSelector.tsx:16 | inserting an inactive child anywhere leaves the options unchanged |
| RecordTypes.ParseSymptomKey | types/record.ts:3-13 | a column value read back as a symptom type is that type's stored key; any other value is no symptom type |
| RecordTypes.SymptomKeyRoundTrip | types/record.ts:3-13 | every symptom type reads back from its stored key, so the ten keys are distinct |
| RecordTypes.SymptomLabel | types/record.ts:52-63 | every label is an emoji, a space and a name, at least three characters |
| RecordTypes.OfKind | lib/shareReport.ts:31-32 | the records of one kind are exactly the input's records of that kind, never more than the input |
| RecordTypes.OfKindSplit | lib/shareReport.ts:31-32 | the symptoms and the medications of a list together number as many as the list |
| Lists.FilterAppend | components/ChildSelector.tsx:16 | filtering a concatenation is concatenating the filtered parts, so a filter keeps the input's order |
| Lists.FilterSplit | lib/intelligentAnalysis.ts:36-37 | two complementary filters together keep as many elements as the input |
| Lists.FilterPartition | lib/intelligentAnalysis.ts:36-37 | two complementary filters together keep every element of the input exactly once |
| Sorting.SortBy | lib/intelligentAnalysis.ts:349-350 | an ascending sort keeps the elements with their multiplicities and orders them by key |
| Sorting.SortByStable | lib/intelligentAnalysis.ts:349-350 | the sort is stable: the elements of any one key come out in their input order |
| Sorting.InsertByKeepsTies | lib/intelligentAnalysis.ts:349-350 | inserting into a sorted list puts the new element after every element of the same key |
| Sorting.SortDescBy | lib/intelligentAnalysis.ts:79 | a descending sort keeps the elements with their multiplicities and orders them by decreasing key |
| Sorting.SortByHead | lib/intelligentAnalysis.ts:182 | the head of the stable sort is the first element of least key |
| Sorting.SortDescByHead | lib/intelligentAnalysis.ts:182 | the head of the descending sort is an input element of greatest key |
| Sorting.SortBySorted | lib/intelligentAnalysis.ts:349-350 | sorting an ordered list changes nothing |
| Text.TrimSlice | components/CreateIncidentDialog.tsx:44 | the trimmed text is a slice of the input and what is cut at either end is white space, as JavaScript defines it |
| Text.TrimEnds | components/CreateIncidentDialog.tsx:57 | the trimmed text neither starts nor ends with white space, as JavaScript defines it |
| Text.TrimIdempotent | components/CreateIncidentDialog.tsx:57 | trimming twice is trimming once |
| Text.TrimEmptyIffBlank | components/CreateIncidentDialog.tsx:44 | a text trims to empty exactly when it is all white space, as JavaScript defines it |
| Text.ToLower | components/InviteUserDialog.tsx:49 | `toLowerCase` maps each character and keeps the length |
| Text.ToLowerIdempotent | components/InviteUserDialog.tsx:59 | lower-casing twice is lower-casing once |
| Text.Split | components/RecordList.tsx:40 | `split` on one character gives at least one part and no part holds the separator |
| Text.JoinSplit | components/RecordList.tsx:40 | joining the parts with the separator gives the text back |
| Text.SplitSingle | components/RecordList.tsx:41 | a text splits into one part exactly when it holds no separator |
| Text.StripFirstToken | components/RecordList.tsx:341-344 | the text is unchanged exactly when it is empty, starts with white space or has none; otherwise what is dropped is a non-empty run of non-blank characters and the one white-space character after it |
| Text.StrLessIrreflexive | lib/offlineDb.ts:97 | no key sorts before itself |
| Text.StrLessTransitive | lib/offlineDb.ts:97 | key order is transitive |
| Text.StrLessTotal | lib/offlineDb.ts:97 | of two distinct keys one sorts before the other |
| Text.MinString | lib/offlineDb.ts:97 | the least key of a non-empty set is in it and sorts before every other |
| Text.SortedKeys | lib/offlineDb.ts:97 | the keys of a store listed exactly once each, in ascending key order |
| Text.ParseIntToString | lib/generateReport.ts:200 | the decimal text of an integer reads back as that integer |
| Text.Fixed1 | lib/generateReport.ts:200 | `toFixed(1)` ends with a point and one digit |
| Text.Fixed1RoundTrip | lib/shareReport.ts:147 | the one-decimal text of a temperature reads back as the same tenths |
| Time.StartOfDay | app/records/page.tsx:112 | the first millisecond of the day: on the same day, not after the instant and less than a day before it |
| Time.EndOfDay | app/records/page.tsx:113 | the last millisecond of the day: on the same day, and the next millisecond is on the next day |
| Time.FloorDiv | components/MedicationReminders.tsx:95 | `Math.floor` of a division by a positive number brackets the dividend |
| Time.CeilDiv | components/PendingInvites.tsx:152 | `Math.ceil` of a division by a positive number brackets the dividend from above |
| Time.DifferenceInDays | lib/intelligentAnalysis.ts:327 | the whole days between two instants, truncated toward zero, in both directions |
| Time.DifferenceAtLeast | lib/intelligentAnalysis.ts:327 | at least n whole days lie between two instants exactly when n days of milliseconds do |
| Lists.Filter | lib/intelligentAnalysis.ts:36-37 | a filter keeps exactly the input elements that satisfy the predicate, never more than the input |
| Lists.FilterCount | lib/intelligentAnalysis.ts:36-37 | a filter keeps each passing element as often as the input holds it, and no other |

## Left out

- IndexedDB mechanics (the versioned `upgrade` callback and the lazy `getDB` singleton, lib/offlineDb.ts:42-82): the store is one explicitly constructed `OfflineDb.Db` object. Whether a local-store call in the hooks completes or throws is a parameter (`OfflineRecords.CacheCalls`, `OfflineSync.HydrationWrites`, and the `readOk`, `cleared` and `countOk` parameters of the sync). Each call is one transaction, and a transaction that fails is aborted, so a call that throws is taken to write nothing, the key generator included.
- The remote database, authentication and storage: every call is a `Remote.Reply` parameter. Row-level security and the server functions (`get_accessible_children`, `accept_child_invite`, `reject_child_invite`) cannot be seen from the client code.
- Server-side query clauses (`eq`, `gt`, `lte`, `order`, `limit`, `single`): for most queries the model takes the rows the server returns as given. Four queries are instead computed from a whole table parameter: the newest 500 records in hydration (`OfflineSync.NewestRecords`), children by name in the report page (`ReportPage.ActiveChildrenByName`), the due reminders with their `eq`/`lte` filter and `order('next_dose_at')` (`MedicationReminders.DueReminders`), and the pending-invite lookup with its `eq` clauses and `.single()` (`InviteUserDialog.PendingFor` and `DuplicateFound`). The order of rows with equal sort keys is left open wherever the database leaves it open.
- GenerateReport.Truncate: lengths and cuts count Unicode code points, where JavaScript's `length` and `substring` count UTF-16 code units. The two agree on text within the Basic Multilingual Plane. With a character beyond U+FFFF (an emoji, say) the source cuts earlier than the model and can keep half a surrogate pair, where the model keeps the whole character.
- GenerateReport.AllergiesText: counts code points, not UTF-16 code units, as for `GenerateReport.Truncate`.
- GenerateReport.ConditionsText: counts code points, not UTF-16 code units, as for `GenerateReport.Truncate`.
- GenerateReport.NotesCell: `substring(0, 60)` and the length test count code points, not UTF-16 code units, as for `GenerateReport.Truncate`.
- RecordList.UserInitials: `parts[0][0]` and `slice(0, 2)` take code points; for a first character beyond U+FFFF the source takes a lone surrogate instead.
- ManageChildAccess.Prefix: `substring(0, 8)` of the id counts code points, not UTF-16 code units.
- ReportPage.SortByName: the database's collation for `ORDER BY name` is modelled as the key order `Text.StrLess`, and the order of equal names is left open.
- Text.StrLess: characters are compared as Unicode code points. The browser's database compares UTF-16 code units, which differs only when a character beyond U+FFFF meets one of U+E000 to U+FFFF.
- React state wiring (`useEffect`, closures, re-renders): each component's state is a class and its handlers are methods. A callback prop becomes a returned value or flag.
- Online/offline window events, `setInterval` polling (hooks/useOfflineSync.ts:51-57, components/MedicationReminders.tsx:26-27), realtime channels (components/HomePage.tsx:163-198) and `router.refresh`: timing and subscriptions are not modelled. `window.location.reload` is the `refreshed` result of `PendingInvites.Card.HandleAccept`.
- Concurrency: the non-atomic `isSyncing` guard is modelled as a sequential check, so two interleaved drains are not modelled.
- IntelligentAnalysis.AverageTemperature: the mean is an exact `real`, without floating-point rounding.
- ShareReport.SummaryMeaning: the text of the average temperature is a parameter `formatMean`, because it is a floating-point `toFixed(1)`.
- `toFixed(1)` of a temperature kept in tenths is modelled exactly (`Text.Fixed1`). `formatTemperature` and `formatDateTime` come from a module outside this model and are parameters.
- `FEVER_THRESHOLD` and `isFever` are imported from a module that is not part of this model: they are a parameter. So is the fever rule that uses them.
- Dates: date-fns, `parseISO`, `setHours` and `toLocaleDateString`. Days are taken in one fixed time zone, with no daylight saving time. ISO strings are not modelled, and the date texts shown in lists and cards are left out.
- Text.ToLower: the case mapping covers ASCII letters only, because Unicode case folding is not modelled. The same holds for `Text.ToUpper`, which `RecordList.InitialsRule` uses.
- RecordList.AvatarColor: a character is one code point. For characters outside the Basic Multilingual Plane, JavaScript's `charCodeAt` sums two UTF-16 code units instead.
- ProfilePage.ToNumber: `Number` is modelled for blank text and optionally signed decimal digits. Decimals, exponents and hexadecimal texts read as NaN.
- The PDF layout and drawing (jsPDF page breaks, colours, footers) and the Blob download (lib/generateReport.ts:445-458): these are I/O. Of the texts the PDF prints, the model keeps the summary, the age, the allergies and conditions texts, the table's detail and notes cells, and the file names; the CSV is modelled whole.
- GenerateReport: the PDF's other printed texts are not modelled: the report titles including "Relatório de Incidente: <title>" (lib/generateReport.ts:102-112), the "Criança: " and "Período:" lines (121-135), the "Informações da Criança" box with its weight, height, blood-type and sex lines (148-166), the "Resumo" heading (189), the table headers of each report type (241-250), the section titles and empty-section texts (314-364), and the footer with "Página i de n" (383-407). They are fixed labels around the values that are modelled.
- Sharing through WhatsApp, e-mail and the clipboard, and `encodeURIComponent` (lib/shareReport.ts:80-126): these are I/O. The model keeps the share text and the subject.
- ImageUpload: the `FileReader` preview is the `dataUrl` parameter, and when it finishes is the `readerFirst` parameter. `Date.now`, `Math.random` and `getPublicUrl` are the `now`, `token` and `publicUrl` parameters.
- Ids from `crypto.randomUUID` are parameters.
- `localStorage` is the saved-selection parameter and a result of the page methods.
- RecordList: `handleDelete` (confirmation, remote delete, callback), the mobile card layout and the edit modal wiring are not modelled. They add no rule beyond the table cells that are modelled.
- ManageChildAccess: `handleRevokeAccess` and `handleCancelInvite` (a confirmation, one remote delete and a refetch) are not modelled, and neither is `getRoleIcon`, which only chooses an icon.
- IncidentCard: the development-mode console logging and the PDF generation call itself are I/O and are left out.
- `components/TemperatureChart.tsx` is not part of this model: it extracts numbers with regular expressions and `parseFloat` from free text, and the rest is chart rendering.
- Navigation, layout and presentation files are not part of this model: Sidebar, BottomNav, AppLayout, AppLayoutWrapper, PWARouter, InstallPWAPrompt, ShareDialog, Logo, InsightsPanel and ProtectedRoute.
- Thin data and auth wrappers are not part of this model: the landing, dashboard, charts and children pages, AuthContext and utils/formatDate.ts. Their payloads pass through unchanged, or they only perform authentication I/O.
