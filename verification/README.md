# Marker bookkeeping of the rokit locator QR add-on

The add-on receives the id of a QR marker and the deviation of the lens from it, composes a pose, and keeps
two SQLite tables: one row per marker in the *user table*, and one row per observation in the *self table*
(the log), which an SQL trigger bounds. A marker that has been seen often enough is *fitted*: its row takes the
mean of its logged poses and is recommended. An operator may enable a marker; from then on it is used as a
reference and sloppy observations of it are counted.

The project models this in layers.

- `MarkerTables` is a machine over *events*: one execution of a mode branch, or one edit by the operator. Its
  state is the user table, the id and pose columns of the log, and the diagnostics issued.
- `LoopMachine` is the loop as a function of its whole state, carried record and log metadata included, and shows
  that only the tables, these two log columns and the carried id and pose have a part in it. `MainLoop` is the loop
  itself, with the objects it updates in place. `LoopRuns` shows that every run of it is a run of the event machine,
  so that the theorems about event runs (`MarkerTables`, `OwnFold`, `Recommendation`, `Conservation`) hold of the
  loop; `CarriedRecord` says what the carried record holds and what it does to the log.
- `SelfLog` is the ROWID table with its trigger, `Windows` the sliding window it refines, `Poses` the six-decimal
  storage, the fit and the distance test.
- `Threads` interleaves the threads that feed the loop, one step per access to what they share (`SharedData`), under
  every schedule (`Folds`); `LostPackages` says which packages the loop never sees, `ModeReads` which mode each test has
  read, `CustomerFilter` what the receiving thread publishes. `Pipeline` composes the threads with the loop.
- `StreamRead` is the short-read loop and the two loops that read poses through it, `DateText` and `BackupCalendar`
  the backup date and the decision made from it at each start-up.

## Assumptions

- SQL statements succeed, except that inserting an existing primary key fails. Both tables start empty, or in any
  state in which no marker has more log rows than its counter says and every sloppy counter is below its counter
  (`MarkerTables.Bounded`).
- Ids and counters are read back as they were written. They are read with `atoi`, whose result is undefined from
  2^31 on, so no claim is made from there on.
- The operator edits the user table between iterations only (any number of edits of `enable` and of poses).
- Poses are exact reals in micro-units; printing a pose rounds each coordinate to an integer, ties to even.
- The mode is an arbitrary value at each of the four places where an iteration reads it.
- Each `recv` delivers one package. A shorter one counts as its bytes followed by zeros, which is what the buffer holds;
  bytes that belong to two packages are not modelled.

## Where the code departs from what one would expect

- The trigger's `LIMIT 100` deletes one row, not a hundred, because `=` compares with a scalar
  (`SelfLog.DeleteDropsOneRow`). An oversized table never shrinks (`Windows.SlideAllIsSuffix`).
- A fit divides the sum of the rows that are left by the threshold. It adds up all sightings exactly if none has been
  evicted (`OwnFold.FitSumsAllIffHeld`); before it is printed, its result is their mean exactly if the evicted ones
  add up to the origin (`OwnFold.FitIsMeanIff`). `OwnFold.EvictionSpoilsTheFit` is a run in which it is not.
- `dmTrigger` leaves the carried record alone in other modes. If the mode changes before the body reads it, each branch
  books a row on the latest package composed, without a new observation. If a branch has run since that package was
  composed, and its id is not 0, the row repeats the pose which the latest branch stored; otherwise it is the pose
  composed back then, logged late (`CarriedRecord.UncomposedTurnLogs`).
- The first branch of a turn logs metadata columns that start from the record carried into it: that is from the row
  which the latest branch of an earlier turn wrote, whichever marker that was for (`CarriedRecord.CarriedMetadata`); a
  second branch goes on from what the first one logged. For a marker with a row, the counter logged first is right
  exactly if the earlier row's counter stands one above the marker's own in recording mode, and level with it in
  localization mode (`CarriedRecord.LoggedCounterIsRightIff`). So it is one too low whenever a marker seen in one turn is
  recorded in the next (`CarriedRecord.SeenTwiceRunning`); `CarriedRecord.SecondRecordingLogsOne` is such a run.
- The log's ninth column, `HaveSloppy`, starts from the carried record too, and for a marker with a row a turn can only
  raise it. So the first branch of a turn logs it wrongly, for such a marker, exactly if its own trigger is not sloppy
  and that of the latest branch before was (`CarriedRecord.LoggedFlagIsRightIff`, with the run
  `CarriedRecord.FlagStaysUp`).
- A notification that finds the main thread elsewhere is lost. Without spurious wake-ups, and with no notification under
  way, every published package has been read by some trigger exactly if that never happened
  (`LostPackages.EveryPackageReadIff`). It can whenever the producer can publish while the main thread is not waiting
  (`LostPackages.TwoPackagesMissed`); `LostPackages.PackagesLostInOneTurn` is a schedule in which two packages are lost
  in one turn.
- The wait for a notification has no condition, so a spurious wake-up triggers on the package published last, even if it
  has been read (`LostPackages.SpuriousWakeupRereads`).
- At the end of the recording stream the reader never finishes (`StreamRead.EndOfStreamNeverCompletes`). A broken
  connection makes it finish with what it has by then: nothing, if it breaks before the first field
  (`StreamRead.ErrorsCompleteTheRound`), or a new x with an old y and yaw (`StreamRead.BreakMixesThePose`). A round
  finishes with a message's worth of bytes taken exactly if each of its six reads returned the size of its field
  (`StreamRead.RoundIsRightIff`).
- A localization message is received whole, but from behind the bytes that earlier failed reads have taken
  (`StreamRead.ReceivedBehindSkipped`). A broken localization connection composes with the pose that was carried
  (`MainLoop.AddOn.DmTrigger`).
- Id 0 is never retrieved: it is announced as new every time, and its row stays as first inserted.
- Printed dates are read back correctly exactly for four-digit years (`DateText.RoundTripIff`). Across New Year one
  day is enough for a backup (`BackupCalendar.BoundsAreTight`), so twelve backups are the bound each time that the clock
  comes to a year (`BackupCalendar.TwelveBackupsAStretch`), and there is none for a clock that goes back and forth
  (`BackupCalendar.EveryYearChangeBacksUp`).

## Model

| member | source | states |
|---|---|---|
| Poses.StorageIsIdempotent | src/database_controller.cpp:144-157 | printing to six decimals and reading back changes a pose at most once, and then by at most half a micro-unit per coordinate |
| Poses.RoundingIsUnique | src/database_controller.cpp:129-131 | the printed value is the nearest one, the even one at ties, and no other |
| Poses.StoredMeanWithin | src/database_controller.cpp:297-299 | a stored mean lies between the coordinate-wise bounds of the stored poses it is made from |
| Poses.SumOfPermutation | src/database_controller.cpp:267-289 | the sum of the fit callback does not depend on the order in which rows are delivered |
| Poses.SloppyIsDistanceTest | src/rpc_client.cpp:241-251 | with the differences in x and y written out, the squared test decides exactly whether the root of the sum of their squares exceeds the threshold, for every threshold and whatever the yaws |
| Windows.SlideAllIsSuffix | src/database_controller.cpp:245-252 | after any number of insertions the window is a suffix of the whole history, of an exactly known size |
| SelfLog.DeleteDropsOneRow | src/database_controller.cpp:250-251 | the trigger's delete statement removes the oldest row and nothing else |
| SelfLog.TableIsSlidingWindow | src/database_controller.cpp:217-265 | the ROWID table with its trigger holds, in ROWID order, exactly the newest rows; its size never exceeds the larger of initial size and limit |
| MarkerTables.LogIsWindow | src/database_controller.cpp:245-252 | over any run from empty tables the log is the last min(n, limit) rows ever appended |
| MarkerTables.RunKeepsBounded | src/main_logic.cpp:147-246 | every event keeps: no marker has more log rows than its counter says, and the sloppy counter is below the counter |
| MarkerTables.CountIsSightings | src/main_logic.cpp:152-245 | the stored counter equals the number of rows ever appended for the id, whatever the modes; a row exists exactly if the id was seen |
| MarkerTables.ZeroStaysAsInserted | src/database_controller.cpp:108-113 | the row of id 0 stays as first inserted while its log grows |
| MarkerTables.FittedAtMostTwice | src/main_logic.cpp:156-161 | over a run a marker is fitted at most once per distinct threshold reached, at increasing counts, never below 2 |
| MarkerTables.NewestSightings | src/database_controller.cpp:284-289 | the log rows of an id are the newest of its sightings |
| MarkerTables.FitIsSurvivingSum | src/database_controller.cpp:276-300 | at a fit the log holds at most N rows for the id, so the limit never chooses; the stored pose is their sum over N, rounded |
| MarkerTables.FitWithinSightings | src/main_logic.cpp:225-229 | a fit with all its rows present stays within every stored box around the sightings |
| MarkerTables.NoDrift | src/main_logic.cpp:153-186 | retrieve and update cycles without a fit or an operator's move leave a stored pose unchanged |
| MarkerTables.MovedMarkerStays | src/database_controller.cpp:144-168 | over any run a marker moved by the operator stays there, printed at the first update, until it is fitted or moved again |
| OwnFold.HeldIffComplete | src/database_controller.cpp:284-287 | the log has all sightings of an id exactly if none lies before the newest limit-many rows |
| OwnFold.RowIsHeldFold | src/main_logic.cpp:147-246 | over every run, unconditionally, the row of every id but 0 is a fold of that id's own events and of how many of its rows the log then holds |
| OwnFold.RowIsFold | src/main_logic.cpp:147-246 | it is the fold of that id's own events alone, edits included, if its rows are held whenever a fit is due |
| OwnFold.FitDueIffFires | src/main_logic.cpp:154-232 | a branch fits a marker exactly if the history, read without any table, makes a fit due: not enabled, seen before, and now as often as `mappRepeatNum` in recording mode or `locRepeatNum` in localization mode |
| OwnFold.HeldFoldIsFoldWith | src/main_logic.cpp:147-246 | the row depends on the own events and on the numbers of rows left to the fits, at most two, and on nothing else |
| OwnFold.InterleavingIsIrrelevant | src/main_logic.cpp:147-246 | two runs with the same events for an id and the same numbers of rows left to its fits agree on its row, under any eviction and interleaving |
| OwnFold.IntactInterleavingIsIrrelevant | src/main_logic.cpp:147-246 | in particular two runs whose fits find all rows of the id |
| OwnFold.ShortRunsAreIntact | src/database_controller.cpp:245-252 | a run no longer than the log keeps every fit intact |
| OwnFold.FitSumsAllIffHeld | src/database_controller.cpp:276-300 | a fit adds up all N sightings exactly if none fell out of the log; it stores the sum of those left over N, rounded |
| OwnFold.FitIsMeanIff | src/database_controller.cpp:276-300 | the fitted pose before printing is the mean of all sightings exactly if those that fell out add up to the origin |
| OwnFold.EvictionSpoilsTheFit | src/database_controller.cpp:245-300 | a run in which eviction halves a fitted pose, and the same run with more room in which it is right |
| OwnFold.UnattendedMarker | src/main_logic.cpp:152-245 | closed form of a never-edited row over any run in both modes: counter, recommend flag and first pose always, the fitted pose if its fits are intact |
| OwnFold.MixedModes | src/main_logic.cpp:156-161 | both modes mixed: a never-edited marker is recommended, at the stored mean of the first k sightings if its fits are intact, for the latest k that is its own mode's repeat number |
| OwnFold.MixedModesBefore | src/main_logic.cpp:225-229 | and not recommended, at its first sighting, as long as there is no such k |
| OwnFold.RecordingOnly | src/main_logic.cpp:152-198 | recording only: always recommended exactly from N sightings on and at the first sighting before; then, if its rows were held at the fit, at the stored mean of the first N |
| OwnFold.LocalizationOnly | src/main_logic.cpp:200-245 | localization only: the same with `locRepeatNum` in place of `mappRepeatNum` |
| Recommendation.EnableIsTheOperators | src/main_logic.cpp:188-192 | the enable column is the operator's latest word since the marker was first seen; the loop never changes it |
| Recommendation.RecommendedIff | src/main_logic.cpp:156-193 | over any run, with edits and eviction, a row is recommended exactly if some event of its history recommended it |
| Recommendation.EnabledMarkerCountsOutliers | src/main_logic.cpp:205-224 | an enabled marker keeps its pose and counts exactly the triggers farther from it than the threshold |
| Recommendation.SloppyCountIsTimesSeenAway | src/main_logic.cpp:205-224 | over any run, with edits, fits and eviction, the sloppy counter is the number of triggers that found the marker enabled and away from its pose then stored |
| Recommendation.DiagnosticsAreTheWords | src/main_logic.cpp:173-196 | over any run the diagnostics are, in order, 1 for every first sighting and every one of id 0, and 4 for every enabled marker seen away from its stored pose |
| Conservation.TotalsBalance | src/main_logic.cpp:173-198 | counters add up to the log's length, sloppy counters to the number of words 4, rows to that of words 1, with the exact correction for id 0, and no other word is issued |
| MainLoop.UserDbController.RetrieveUsrDb | src/database_controller.cpp:91-119 | found exactly for a stored id other than 0, whatever the uninitialised local id; the global flag is down again |
| MainLoop.UserDbController.AddContent | src/database_controller.cpp:121-142 | inserts the printed row unless the primary key exists |
| MainLoop.UserDbController.UpdateDataBase | src/database_controller.cpp:144-168 | rewrites the printed row of an existing id and no other |
| MainLoop.SelfDbController.AddContent | src/database_controller.cpp:217-239 | the log slides by the printed record, and its id and pose columns by the trigger whatever the other columns hold |
| MainLoop.ScanOfFewRows | src/database_controller.cpp:284-287 | a scan with a limit but no order delivers the same sum whenever no more rows match than the limit |
| MainLoop.SelfDbController.FitPose | src/database_controller.cpp:267-301 | the callback's sum over any admissible scan, divided by the threshold, becomes the record's pose and changes nothing else |
| MainLoop.AddOn.ReportSloppy | src/main_logic.cpp:213-222 | one diagnostic, and one sloppy count in both records, exactly if the trigger is farther than the threshold |
| MainLoop.AddOn.LogAndFit | src/main_logic.cpp:225-232 | a marker that is not enabled is logged once, and fitted from the log including that row exactly at the threshold |
| MainLoop.AddOn.RecordingKnown | src/main_logic.cpp:154-185 | the RECORDING branch for a retrieved marker up to the update: both records, the logged row with its metadata, diagnostics |
| MainLoop.AddOn.LocalizationKnown | src/main_logic.cpp:202-232 | the LOCALIZATION branch for a retrieved marker up to the update: both records, the logged row with its metadata, diagnostics |
| MainLoop.AddOn.Announce | src/main_logic.cpp:188-197 | the branch for a marker without a retrievable row: both records, the logged row, the tables, for each mode |
| MainLoop.AddOn.RecordingBranch | src/main_logic.cpp:152-199 | the whole state and both records after the branch, for a found marker and a new one |
| MainLoop.AddOn.LocalizationBranch | src/main_logic.cpp:200-245 | the whole state and both records after the branch, for a found marker and a new one |
| MainLoop.AddOn.Body | src/main_logic.cpp:149-246 | the whole state after a body with two independent mode tests: tables, every column of the log, diagnostics, carried record |
| MainLoop.AddOn.DmTrigger | src/thread_pool.cpp:218-272 | the carried record coordinate by coordinate, localization state and rokit pose after the trigger, in every mode and for a failed localization read |
| MainLoop.AddOn.MainWhile | src/main_logic.cpp:147-246 | the whole state after any run, metadata included, and its tables, carried id and pose as a function of themselves and the inputs |
| LoopMachine.BranchSees | src/main_logic.cpp:152-245 | what one branch does to tables, trustworthy columns and carried id and pose is one event of the table machine, whatever the metadata |
| LoopMachine.TriggerComposes | src/thread_pool.cpp:224-272 | the carried pose after a trigger is the sensed x, y and yaw plus the package's x, y and a deviations, the carried pose plus these if the localization read failed, unchanged in other modes |
| LoopMachine.MetadataIsNotRead | src/main_logic.cpp:150-245 | over any run the carried and logged metadata have no part in tables, trustworthy columns, diagnostics and carried id and pose |
| LoopRuns.LoopIsRun | src/main_logic.cpp:147-246 | the tables after any run of the loop are those of the table machine on the run's branch executions |
| LoopRuns.LoopRowIsFold | src/main_logic.cpp:147-246 | for the loop started on empty tables, each row is the fold of its own events and held rows, the plain fold if its fits are intact, and counts its own log rows |
| LoopRuns.MetadataIsIrrelevant | src/main_logic.cpp:150-151 | two loops with equal tables and carried id and pose but different metadata and uninitialised ids stay equal |
| CarriedRecord.CarriedMetadata | src/main_logic.cpp:150-198 | the metadata carried into a turn is that of the record which the latest branch left, whose columns of the user table are those of the row it wrote |
| CarriedRecord.CarriedIdAndPose | src/thread_pool.cpp:218-272 | a turn is booked on the latest package composed, or id 0; its record has the pose composed then, or after a branch one that prints as stored |
| CarriedRecord.UncomposedTurnLogs | src/thread_pool.cpp:224-272 | after any run, exactly what the branches of a turn without composition log, in either mode |
| CarriedRecord.LoggedMetadataIff | src/main_logic.cpp:150-245 | for each metadata column, the sloppy flag included, exactly when the logged row agrees with the stored one or, for the flag, with this trigger; a first sighting is logged with counter 1 in recording mode and 0 in localization mode |
| CarriedRecord.LoggedCounterIsRightIff | src/main_logic.cpp:150-245 | after any run, exactly when the first branch of a turn logs the counter that it stores |
| CarriedRecord.SeenTwiceRunning | src/main_logic.cpp:150-245 | a marker seen in two turns running is logged with a counter one too low in recording mode and with the right one in localization mode |
| CarriedRecord.SecondRecordingLogsOne | src/main_logic.cpp:152-186 | from empty tables the second recording of a marker logs 1 while its row says 2 |
| CarriedRecord.CarriedFlag | src/main_logic.cpp:150-245 | over every run the sloppy flag carried into a turn tells whether the latest branch found its marker enabled and out of place |
| CarriedRecord.LoggedFlagIsRightIff | src/main_logic.cpp:150-245 | after any run the first branch of a turn, for a marker with a row, logs the wrong sloppy flag exactly if its trigger is not sloppy and that of the latest branch before was |
| CarriedRecord.FlagStaysUp | src/main_logic.cpp:205-224 | a run of three sightings, under any configuration, whose last row is logged as sloppy although only the one before was |
| Pipeline.BookedInOrder | src/thread_pool.cpp:188-223 | under every schedule, turns are booked on published packages, or id 0, in the order of publication |
| Pipeline.ComposedFromReceived | src/thread_pool.cpp:187-272 | end to end under every schedule: a composing turn books a received package's id and the sensed pose minus that package's deviation in each coordinate, and each of its branches logs just that, printed |
| Pipeline.RowsArePublished | src/main_logic.cpp:188-197 | under every schedule, every user row but that of id 0 is for an id that was received and published |
| Pipeline.AtMostTwoRowsAPackage | src/main_logic.cpp:147-246 | without spurious wake-ups the log receives at most two rows per published package |
| Pipeline.CountersWithinPackages | src/main_logic.cpp:147-246 | without spurious wake-ups no counter exceeds twice the number of published packages |
| CustomerFilter.RecCustomerPack | src/thread_pool.cpp:173-201 | the receiving loop publishes exactly the packets whose id differs from the packet before on the connection |
| CustomerFilter.PublishedIdsAlternate | src/thread_pool.cpp:175-199 | on one connection adjacent published ids differ, 0xffffffff is suppressed at the start, and the latest id received is the latest published |
| CustomerFilter.ReconnectRestarts | src/thread_pool.cpp:173-186 | what a new connection publishes does not depend on the ones before |
| CustomerFilter.FailuresAreIgnored | src/thread_pool.cpp:181-183 | a failed receive, wherever it occurs, changes neither what is published nor the id remembered |
| Threads.EveryScheduleIsSafe | src/thread_pool.cpp:187-223 | under every schedule: mutual exclusion, no torn package, snapshots in order of publication, the body sees the trigger's package or a later one, published packages are the filtered stream |
| Threads.TriggersReadNegated | src/thread_pool.cpp:191-194 | under every schedule each trigger after the first package has read the id of a received package and its x, y and a deviations, each with the sign changed |
| ModeReads.EveryModeWasRead | src/thread_pool.cpp:224-250 | under every schedule each mode that a trigger or a body has acted on is the one written latest before its test, or 0xfd if none was |
| Threads.PackageIsStableUnderLock | src/main_logic.cpp:147-152 | no other thread changes the shared package under the main thread's lock, while the mode may change |
| Threads.TriggersAdvance | src/thread_pool.cpp:216-222 | without spurious wake-ups each trigger reads a strictly newer package |
| Threads.TriggersNeverExceedPackages | src/thread_pool.cpp:188-222 | completed triggers never outnumber published packages, and each read one whole published package |
| LostPackages.EveryPackageReadIff | src/thread_pool.cpp:188-222 | without spurious wake-ups and with no notification under way, every published package has been read by a trigger exactly if no notification found the main thread elsewhere |
| LostPackages.TwoPackagesMissed | src/thread_pool.cpp:188-198 | after any schedule in which the producer can publish and the main thread is not waiting, two packages more can be published that no trigger is notified of |
| LostPackages.PackagesLostInOneTurn | src/thread_pool.cpp:188-222 | a schedule in which two packages are published between a trigger and its body and never read |
| LostPackages.SpuriousWakeupRereads | src/thread_pool.cpp:216-222 | after any schedule with the main thread waiting, a spurious wake-up completes a trigger on the package published last, read before or not |
| StreamRead.FillTakes | include/binary_interface_client.h:46-61 | closed form of the short-read loop: bytes taken, and success exactly if everything asked for was granted and arrived |
| StreamRead.ShortReadReturnsRefusal | include/binary_interface_client.h:53-56 | a read that falls short returns the answer that refused more, however much it has taken, or a zero if the stream has run dry |
| StreamRead.BinaryInterfaceClient.Read | include/binary_interface_client.h:46-61 | the buffer starts with the next bytes of the stream in order and is otherwise untouched; a failed read has consumed what it took |
| StreamRead.RoundDecodes | src/thread_pool.cpp:229-249 | six chained field reads decode the next 44 bytes, however the system cuts them: x, y and yaw are bytes 20 to 27, 28 to 35 and 36 to 43 |
| StreamRead.StalledRoundIsRetried | src/thread_pool.cpp:229-242 | a round that gets a zero and no byte is made again, as if it had not been |
| StreamRead.EndOfStreamNeverCompletes | src/thread_pool.cpp:229-242 | once the stream has ended no number of rounds completes a message |
| StreamRead.ErrorsCompleteTheRound | src/thread_pool.cpp:229-249 | a connection broken from the first read on completes the round with all fields as they were |
| StreamRead.RoundIsRightIff | src/thread_pool.cpp:229-249 | for every connection a round completes with 44 bytes taken exactly if each read returned its field's size, and then its message is the next 44 bytes |
| StreamRead.BreakMixesThePose | src/thread_pool.cpp:229-249 | a connection that breaks after the fourth field completes the round with a new x and an old y and yaw |
| StreamRead.EndOfStreamNeverReceives | src/thread_pool.cpp:254-266 | once the stream has ended no number of reads delivers a localization message |
| StreamRead.PoseReadStep | src/thread_pool.cpp:256-266 | one localization read on every connection: a message exactly if all its bytes arrive and are granted, else an error or the next read behind the bytes taken |
| StreamRead.ReceivedBehindSkipped | src/thread_pool.cpp:254-266 | for every connection and number of reads, a message received is contiguous and starts behind what the failed reads before it have taken |
| StreamRead.PoseReadOutcome | src/thread_pool.cpp:256-266 | in particular the next 172 bytes are received if every call makes progress, a connection broken from the start is reported, and the end of the stream is waited on |
| StreamRead.BinaryInterfaceClient.ReadRound | src/thread_pool.cpp:230-248 | one round for every connection: results, all fields and the connection afterwards |
| StreamRead.BinaryInterfaceClient.ReadRecordingMessage | src/thread_pool.cpp:227-249 | the retry loop for any number of rounds on every connection |
| StreamRead.BinaryInterfaceClient.ReadPoseMessage | src/thread_pool.cpp:254-266 | the localization read loop for any number of reads on every connection |
| StreamRead.ChainedReadsAreOneRead | src/thread_pool.cpp:229-241 | chained reads and one contiguous read of 44 bytes agree on the message and on the rest of the stream |
| DateText.RoundTripIff | src/database_controller.cpp:338-350 | parsing a printed date returns it exactly for four-digit years |
| DateText.PrintIsYearMonthDay | src/database_controller.cpp:346-350 | the printed date, read as one number, is yyyymmdd |
| DateText.ParseIsYearMonthDay | src/database_controller.cpp:338-340 | eight digits are parsed as the parts of the number that they write |
| DateText.DigitStringsParseIff | src/database_controller.cpp:338-340 | strings of digits are parsed exactly from seven on, and which exception each shorter one throws |
| DateText.ShippedDate | config/config.yaml:9 | the shipped string 20230220 and the date of 20 February 2023 are each other's printed and parsed form |
| BackupCalendar.NotDueIsRecent | src/database_controller.cpp:344-388 | no backup means the recorded one is of this year and at most 31 days old, wherever the clock stands, and past exactly if the clock was not set back |
| BackupCalendar.DueInSameYearIsOld | src/database_controller.cpp:358-386 | a backup within the recorded year means at least 29 days and a later month |
| BackupCalendar.BoundsAreTight | src/database_controller.cpp:344-386 | both bounds are attained, and New Year needs one day only |
| BackupCalendar.DueIffMonthIsOver | src/database_controller.cpp:344-386 | a backup is due exactly in another year or after the same day of the following month |
| BackupCalendar.NotAfterIsDayOrder | src/database_controller.cpp:358-373 | the order of dates by year, month and day is that of the days of the calendar |
| BackupCalendar.CheckDate | src/database_controller.cpp:331-389 | the decision on every readable date, calendar date or not, with year, month and day written out, the exception on a malformed one, and what is persisted |
| BackupCalendar.StartUps | src/main_logic.cpp:132-137 | a sequence of start-ups persists and backs up as the recursive definition says |
| BackupCalendar.StoredDateIsLatestBackup | src/database_controller.cpp:331-389 | over all start-ups, the clock set back or not, the persisted string is the printed latest backup, so strings and dates make the same backups |
| BackupCalendar.StoredDateIsReadable | src/database_controller.cpp:338-340 | over all start-ups, the clock set back or not, the persisted string can be parsed, to the latest backup |
| BackupCalendar.StartUpBacksUpIff | src/database_controller.cpp:331-389 | after any start-ups, the next one backs up exactly in another year than the latest backup or after the same day of the following month |
| BackupCalendar.ShippedDateIsDue | src/database_controller.cpp:373-386 | from the shipped date a start-up on 21 March 2023 backs up and one on 20 March does not |
| BackupCalendar.BackupIsAlwaysRecent | src/database_controller.cpp:331-389 | after every start-up, the clock set back or not, the recorded backup is of this year and at most 31 days old, and a second start-up that day makes none; it is past unless the clock was set back |
| BackupCalendar.BackupsAreSpaced | src/database_controller.cpp:358-386 | consecutive backups of one year are at least 29 days apart, the clock set back or not |
| BackupCalendar.TwelveBackupsAStretch | src/database_controller.cpp:331-389 | over all start-ups at most twelve backups fall in a calendar year for each time that the clock comes to it |
| BackupCalendar.AtMostTwelveBackupsAYear | src/database_controller.cpp:331-389 | at most twelve backups fall in any calendar year, however many start-ups there are, unless the clock is set back across New Year |
| BackupCalendar.EveryYearChangeBacksUp | src/database_controller.cpp:344-350 | a clock that changes the year with every start-up makes every one of them back up |

## Left out

- MarkerTables.CountIsSightings: counters are unbounded; from 2^31 on, `atoi` is undefined and the claim is not made.
- MainLoop.AddOn.DmTrigger: the sensed poses are fields of the tick; how bytes become the reals in them is not modelled, and the readers are related to the tick in words only.
- StreamRead.BinaryInterfaceClient.ReadRecordingMessage: the loop need not end, so it takes the number of rounds as a parameter; the claims hold for every number.
- MainLoop.AddOn.MainWhile: the unbounded loop is modelled on every finite sequence of iterations.
- BackupCalendar.BackupIsAlwaysRecent: this and the other claims over many start-ups are for dates with four-digit years; on others the printed date is not read back (`DateText.RoundTripIff`).
- Threads.EveryScheduleIsSafe: a state machine over values with one step per access to the shared package and the mode, because Dafny methods do not interleave; it keeps the order of accesses but not the objects. `CustomerFilter.RecCustomerPack` is the same producer as a loop.
- Progress under a fair scheduler: which notifications are lost depends on the schedule, and no fairness is assumed of it.
- Edits of the user table during an iteration, which `updateDataBase` may overwrite.
- The mode bits decoded by `listenMode` and the choice of the seed flags: one branch settles each.
- Remote procedure calls, their ids, sessions and accounts, which do not affect the tables.
- Socket set-up and reconnection, the diagnostics socket, the online backup, signals, console input, logging and YAML; only the words sent and the persisted date are kept.
- Floating-point rounding in sums, quotients and the square root, and the wrap-around of yaw: the code uses a plain arithmetic mean, and so does the model.
