# Verified models of TradeOS, qlib and nautilus_trader internals

This project models the parts of the repository whose correctness depends on state kept over many steps, and proves
what they promise:

* **Point-in-time files** (`BinaryFile`, `PitLayout`, `PitDump`, `PitQuery`). qlib stores every revision of a quarterly or
  annual figure in a data file of 20-byte records and an index file of 4-byte words. Records of one period form a linked
  list through byte offsets. The model works on the bytes: the writer seeks, reads and patches two `File` objects, and the
  invariant is that both files are a function of the log of published rows. The reader is proved to answer as a scan of
  that log would.
* **Bar store, backfill, replay** (`TimeSeries`, `BarStore`, `Backfill`, `Replay`). A store of monthly files is proved to
  stand for the map from timestamp to first-written bar, for any sequence of writes. The batched backfill and the sliced
  replay are then proved against that map, up to the composition of all three.
* **Dense feature files** (`DenseBin`). A calendar, a header offset and an array of cells, created by a full dump and
  appended to by updates.
* **Simulated execution** (`Fills`, `Ledger`). A ledger of shared mutable orders and positions and an event sink that
  holds the same objects. One invariant is kept by any interleaving of submit, cancel, modify, start, stop and close.
* **Risk chain** (`RiskFilters`, `RiskEngine`). Sizing, clamp, filter chain with audit trail, slices, and what executing
  a plan does to the ledger's position.
* **Source rewriting** (`DocSplice`, `Stubs`). Doc-comment splices applied in reverse, signature splitting, default
  filtering and constant naming of the nautilus_trader Python tools.

`dafny verify dfyconfig.toml` checks everything. `Common` holds the option type.

## Where the code does not do what one would expect

Each of these keeps the code as it is and states on the input exactly when the expected behaviour holds; some add a concrete
input on which it fails.

* A point-in-time data file reopened for an update has its cursor at 0. A record, first of its slot or revision, is
  published if and only if the cursor is at the end of the data (`PitDump.CursorMustBeAtEnd`,
  `PitDump.RevisionCursorMustBeAtEnd`).
* Nothing checks that a quarter is 1 to 4. Quarter 5 shares the slot of the next year's first quarter
  (`PitQuery.QuarterFiveAliases`); for any rows, the chain of a period's slot is the plain filter of the log if and only if
  no row of another period has that slot (`PitQuery.ChainIsFilterIff`).
* Quarter 0 of the first year takes the year word for a link (`PitDump.QuarterZeroReadsYear`), so it never gets a chain of
  its own: the dump stops there when the data ends before year + 20 bytes (`PitDump.PitFiles.DumpRow`), and when the year is
  the offset of a record the row joins that record's chain (`PitQuery.QuarterZeroJoins`).
* Reading a period before the first year wraps around to the end of the index. The answer at a date is right if and only if
  the period is not that early or no row of the period it wraps to is dated by then, and right at all dates if and only if
  there is no such row at all (`PitQuery.WrappedRead`, `PitQuery.WrappedReads`).
* The first write of a month is stored as it comes, so a read is in order if and only if no month in range was written by
  a single unordered batch (`BarStore.ReadOrder`, `BarStore.UnorderedFirstBatch`).
* A backfill equals one fetch of the range, except that a one-point range fetches nothing
  (`Backfill.BackfillIsSingleFetch`); a bar on an interior batch boundary is counted twice (`Backfill.BackfillTotal`).
* A bar on an interior slice boundary is replayed twice (`Replay.ReplayDelivers`).
* An update appends a symbol's own dates. Its file stays aligned if and only if these are the calendar entries right after
  its last cell (`DenseBin.SymbolAlignedIff`, `DenseBin.SkippedDayShifts`).
* The correlation filter rounds to six decimals and can raise a quantity, although filters are documented to keep, cut or
  veto. Exits and reductions of a position are safe in all markets if and only if its size is at most half a millionth above
  the grid (`RiskEngine.ReductionsSafeIff`); any other one is carried past zero by some plan
  (`RiskEngine.ExitCanCrossZero`).
* A limit price is rounded to cents, which can bring a long one below the price (`RiskEngine.LongLimitBelowPrice`). Limits
  are on the far side of the price for every impact if and only if rounding the price itself does not bring it to the near
  side (`RiskEngine.LimitsBeyondIff`).
* An attribute between two doc lines lies in the replaced range and is lost (`DocSplice.AttributeBetweenDocsLost`); code
  lines survive if and only if the replaced ranges hold comments only (`DocSplice.CodeSurvives`).
* Screaming-snake conversion is not idempotent on all names with digits (`Stubs.DigitSplits`). It is if and only if no digit
  runs into a small letter and no letter followed by a small letter runs into a digit (`Stubs.SnakeTwiceIff`).

## Model

| member | source | states |
|---|---|---|
| BinaryFile.UnpackPack | qlib/qlib/config.py:227-238 | An unsigned 32-bit field survives being packed to four little-endian bytes and unpacked |
| BinaryFile.PackBytes | qlib/qlib/config.py:227-238 | The least significant byte of a field comes first |
| BinaryFile.File.Seek | qlib/scripts/dump_pit.py:244 | The cursor moves and nothing else does |
| BinaryFile.File.Read | qlib/scripts/dump_pit.py:245 | Returns the bytes at the cursor, fewer at the end of the file, and advances by what it returned |
| BinaryFile.File.Write | qlib/scripts/dump_pit.py:249-250 | The bytes at the cursor are replaced, past the end the file grows, and a gap reads as zeros |
| BinaryFile.OverwriteAt | qlib/scripts/dump_pit.py:249-264 | Byte by byte, a write leaves the new bytes where they are written, the old ones elsewhere, and zeros in a gap |
| BinaryFile.FlattenSlice | qlib/scripts/dump_pit.py:35-48 | In a file of fixed-width records, the bytes at a multiple of the width are that record |
| BinaryFile.FlattenPatch | qlib/scripts/dump_pit.py:259-260 | Writing inside one record changes that record and no other byte of the file |
| BinaryFile.FlattenAppend | qlib/scripts/dump_pit.py:264 | Writing at the end of a file of records adds one record |
| PitLayout.DecodeEncode | qlib/scripts/dump_pit.py:35-48 | A record [date, period, value, next] survives being packed to its 20 bytes and unpacked |
| PitLayout.RecordFields | qlib/scripts/dump_pit.py:35-48 | A record is date, period, value and link, of 4, 4, 8 and 4 bytes, in that order |
| PitLayout.Layout.SlotOfQuarter | qlib/qlib/utils/__init__.py:101-106 | A year and any quarter number have the slot four per year from the first plus the quarter less one |
| PitLayout.Layout.SlotsInOrder | qlib/qlib/utils/__init__.py:101-106 | The first period has slot 0 and periods that follow each other have slots that do |
| PitLayout.DataImageAt | qlib/scripts/dump_pit.py:157-169 | Record i of the data file unpacks to row i of the log and a link to the next row of the same slot, or to none |
| PitLayout.IndexImageAt | qlib/scripts/dump_pit.py:157-169 | Word 1 + k of the index unpacks to the offset of the first row of slot k, or to none |
| PitLayout.IndexImageHeader | qlib/scripts/dump_pit.py:200-210 | The first word of the index is the first year, which is how it is read back |
| PitLayout.PublishFirstData | qlib/scripts/dump_pit.py:247-264 | For the first row of a slot, appending its record to the data file gives the file of the longer log |
| PitLayout.PublishFirstIndex | qlib/scripts/dump_pit.py:247-250 | For the first row of a slot, pointing the slot at the end of the data gives the index of the longer log |
| PitLayout.RelinkTail | qlib/scripts/dump_pit.py:259-260 | Patching the last four bytes of the chain's last record changes that record's link only |
| PitLayout.PublishRevisionData | qlib/scripts/dump_pit.py:251-264 | For a revision, patching the slot's last record and appending gives the file of the longer log |
| PitLayout.PublishRevisionIndex | qlib/scripts/dump_pit.py:251-261 | For a revision the index already is that of the longer log |
| PitLayout.EmptyIndex | qlib/scripts/dump_pit.py:217-223 | Appending one NA word to an index without rows adds one empty slot |
| PitDump.FreshSlotsCover | qlib/scripts/dump_pit.py:192-223 | Every well-formed row of a fresh dump has an index slot |
| PitDump.FreshSpans | qlib/scripts/dump_pit.py:192-223 | The index runs exactly from the year of the first row period to that of the last |
| PitDump.FreshSlotsFrom | qlib/scripts/dump_pit.py:192-198 | In a fresh dump no row comes before the year word, and only quarter 0 of the first year is on it |
| PitDump.EmptySlots | qlib/scripts/dump_pit.py:207-223 | The written index has four empty slots a year, or one for annual data, after the first year |
| PitDump.FreshYears | qlib/scripts/dump_pit.py:192-198 | First year and number of years span the least to the greatest period of the rows |
| PitDump.PitFiles.constructor | qlib/scripts/dump_pit.py:207-236 | A fresh dump starts with the files of the empty log and the cursor at the end of the data |
| PitDump.PitFiles.ReadSlot | qlib/scripts/dump_pit.py:242-245 | Reads the head of a slot's chain, the year for slot -1, and nothing when the index has no such slot |
| PitDump.PitFiles.FindTail | qlib/scripts/dump_pit.py:252-258 | The chain walk terminates at the last record of the slot: it is of that slot and no later record is |
| PitDump.PitFiles.PublishFirst | qlib/scripts/dump_pit.py:247-264 | The two files become those of the log with the row added, and the cursor is at the end again |
| PitDump.PitFiles.PublishRevision | qlib/scripts/dump_pit.py:251-264 | The same for a row whose slot has records, given the last of them |
| PitDump.PitFiles.DumpRow | qlib/scripts/dump_pit.py:240-264 | For any row: published exactly when its slot is in the index and its offset fits 32 bits; refused with both files keeping their bytes otherwise; on the year word refused or, with data past year + 20 bytes, derailed |
| PitDump.PitFiles.FollowYear | qlib/scripts/dump_pit.py:252-258 | Taking the year for a link fails exactly when the data ends before year + 20 bytes |
| PitDump.PitFiles.DumpRows | qlib/scripts/dump_pit.py:238-264 | Publishes rows in order up to the first that does not go through; the files are the image of exactly those rows |
| PitDump.AllPublished | qlib/scripts/dump_pit.py:238-264 | Well-formed rows all go through, as far as offsets fit 32 bits |
| PitDump.DumpField | qlib/scripts/dump_pit.py:185-264 | A fresh dump of any rows leaves the image of the rows published up to the first that does not go through, in an index of exactly their years; of well-formed rows, of all that fit 32-bit offsets |
| PitDump.QuarterZeroReadsYear | qlib/scripts/dump_pit.py:242-245 | Quarter 0 of the first year has slot -1, whose word is the year |
| PitDump.CursorMustBeAtEnd | qlib/scripts/dump_pit.py:226-264 | Writing a slot's first record at a cursor gives the data of the longer log if and only if the cursor is at the end; at cursor 0 it replaces record 0 |
| PitDump.RevisionCursorMustBeAtEnd | qlib/scripts/dump_pit.py:226-264 | The same for a later record of a slot, whose tail is linked to the cursor first |
| PitQuery.ChainFrom | qlib/scripts/dump_pit.py:252-261 | Following links from any record's successor visits a given list of records if and only if it lists the remaining records of the slot in order |
| PitQuery.ChainOfSlot | qlib/scripts/dump_pit.py:238-264 | Following links from a slot visits exactly the records of the slot, each once, in write order, and ends at NA |
| PitQuery.ChainIsFilterIff | qlib/scripts/dump_pit.py:238-264 | For any rows, the rows on the chain of a period's slot are the plain filter of the log by that period if and only if no other period of the log has that slot |
| PitQuery.ChainIsFilter | qlib/scripts/dump_pit.py:238-264 | So it is for well-formed periods |
| PitQuery.ChainsPartition | qlib/scripts/dump_pit.py:238-264 | Every record is on the chain of its own period and on no other |
| PitQuery.SlotInjective | qlib/qlib/utils/__init__.py:101-106 | Periods from the first year with quarters 1 to 4 have slots from 0 on, different for different periods |
| PitQuery.QuarterFiveAliases | qlib/qlib/utils/__init__.py:101-106 | Quarter 5 has the slot of the next year's first quarter |
| PitQuery.QuarterZeroJoins | qlib/scripts/dump_pit.py:251-264 | When the first year is the offset of a record, a quarter 0 row becomes a revision of that record's slot |
| PitQuery.LinksPointForward | qlib/scripts/dump_pit.py:33-48 | Every link is NA or a multiple of 20, past its own record and inside the data; NA is no such multiple |
| PitQuery.WalkUntil | qlib/qlib/utils/__init__.py:160-173 | A walk stopping at the first later date ends at the last row of the slot dated by then in the whole log |
| PitQuery.ReadPeriodData | qlib/qlib/utils/__init__.py:109-173 | On a dump of date-sorted rows, value and cursor are those of the last row of the slot by the date; resuming from an earlier cursor gives the same; an index outside the array fails |
| PitQuery.AnswerIsLastOfPeriod | qlib/qlib/utils/__init__.py:117-133 | For well-formed periods the slot's answer is that of a scan of the log for the period |
| PitQuery.AnswerPoints | qlib/qlib/utils/__init__.py:160-173 | The cursor of an answer is the offset of the row found, else of the period's first row, else NA |
| PitQuery.NoAnswerYet | qlib/qlib/utils/__init__.py:160-173 | A slot has no answer at a date if and only if no row of its period is dated by then |
| PitQuery.WrappedRead | qlib/qlib/utils/__init__.py:150-158 | With a proper quarter, the read finds the period's row at a date if and only if the period is not before the first year or no row of the period it wraps to is dated by then |
| PitQuery.WrappedReads | qlib/qlib/utils/__init__.py:150-158 | It does so at every date if and only if the period is not before the first year or no row has the period it wraps to |
| PitQuery.DumpThenRead | qlib/qlib/utils/__init__.py:109-173 | Dump then read returns the last value of the period published by the date, or NaN, with the cursor on it; it fails exactly when no row is of that year or later |
| TimeSeries.SeriesUnique | TradeOS/core/data/store.py:573-577 | Two increasing sequences with the same first bar for every timestamp are equal |
| TimeSeries.LookupFirst | TradeOS/core/data/store.py:573-577 | What stands for a timestamp is the first bar written for it |
| TimeSeries.CanonicalSpec | TradeOS/core/data/store.py:573-577 | Dropping duplicates and sorting gives an increasing sequence with the same first bar for every timestamp |
| TimeSeries.CanonicalAbsorbs | TradeOS/core/data/store.py:573-577 | Merging into an already merged file is merging everything at once |
| TimeSeries.IncreasingCopies | TradeOS/core/data/store.py:573-577 | An increasing sequence holds exactly the bars it stands for, each once |
| TimeSeries.RangeAppend | TradeOS/core/data/store.py:210 | A range is cut bar by bar, keeping their order |
| TimeSeries.RangeOne | TradeOS/core/data/store.py:210 | A bar is in the range or it is not |
| TimeSeries.WindowsCover | TradeOS/core/data/replay.py:360-386 | The windows of a stepped range cover each point of the closed range once, interior boundaries twice, and no other point |
| TimeSeries.WindowsEndToEnd | TradeOS/core/data/backfill.py:103-107 | The windows lie end to end over the range, all of full length but the last |
| BarStore.ContentsStep | TradeOS/core/data/store.py:550-588 | One more batch changes a month as the merge does: stored as is the first time, merged later |
| BarStore.FileSeries | TradeOS/core/data/store.py:141-190 | After any batches a month's file stands for the first-written bars of that month |
| BarStore.FileCopies | TradeOS/core/data/store.py:550-588 | A file holds a bar as often as it came while its month was written once, afterwards once if it was first for its timestamp |
| BarStore.ReadSeries | TradeOS/core/data/store.py:192-233 | Reading a range finds for every timestamp in it the first-written bar, and none outside |
| BarStore.ReadCopies | TradeOS/core/data/store.py:192-233 | It returns every bar of the range as often as it is stored and no other bar |
| BarStore.ScanInFileOrder | TradeOS/core/data/store.py:205-231 | Months never go back in a read, and each month's bars are those of its file in the range, in the order of the file |
| BarStore.OrderedFilesScanOrdered | TradeOS/core/data/store.py:205-231 | Files in increasing order are read in increasing order |
| BarStore.ReadOrder | TradeOS/core/data/store.py:192-233 | The result is strictly increasing if and only if every month written by a single batch was in order in the range |
| BarStore.OrderedBatchesReadOrdered | TradeOS/core/data/store.py:192-233 | Increasing batches satisfy that condition on every range |
| BarStore.UnorderedFirstBatch | TradeOS/core/data/store.py:573-579 | A single batch with two bars of a month in the wrong order does not |
| BarStore.DataStore.WritePartition | TradeOS/core/data/store.py:550-588 | The month's file becomes the merge, or the records as they are when it is new; the count is that of the records |
| BarStore.DataStore.GroupByMonth | TradeOS/core/data/store.py:151-171 | Every month gets its bars in their order, no bar is lost, months are distinct |
| BarStore.DataStore.WriteMonths | TradeOS/core/data/store.py:173-181 | All month files become those of the batches with this one added |
| BarStore.DataStore.WriteBars | TradeOS/core/data/store.py:141-190 | The store stands for its batches with this one added; all bars are counted |
| BarStore.DataStore.ReadBars | TradeOS/core/data/store.py:192-233 | The month loop terminates and returns the first-written bar of every timestamp of the range, every bar as often as stored and no other, in the order of the files, strictly increasing under the exact condition |
| Backfill.BackfillManager.FetchBatch | TradeOS/core/data/backfill.py:109-159 | Each outcome of a window: what is written, what arrived, what is counted and what is reported |
| Backfill.BackfillManager.Backfill | TradeOS/core/data/backfill.py:98-187 | Terminates; the store gets the answers of all windows that did not fail; counts of bars fetched and written; every window's messages are reported, and none exactly when no window has any |
| Backfill.WrittenIsFetched | TradeOS/core/data/backfill.py:118-134 | Written equals fetched if and only if no window's bars are lost after they arrived |
| Backfill.ErrorsReported | TradeOS/core/data/backfill.py:121-126 | Failed fetches, lost bars and validation issues are all reported, and nothing is exactly when there are none |
| Backfill.ErrorsAppend | TradeOS/core/data/backfill.py:153-154 | Windows are reported one after another |
| Backfill.DeliveredSeries | TradeOS/core/data/backfill.py:98-162 | The bars delivered are those of the source series in windows that did not fail, although windows share boundaries |
| Backfill.BackfillSeries | TradeOS/core/data/backfill.py:98-162 | Without failures these are all bars of the closed range, and none when it is a single point |
| Backfill.SameSeriesSameFiles | TradeOS/core/data/store.py:573-588 | Increasing batches make the same files if and only if they stand for the same series |
| Backfill.BackfillIsSingleFetch | TradeOS/core/data/backfill.py:98-162 | The batched backfill makes the files of one fetch of the range if and only if the range is not one point holding a bar |
| Backfill.BackfillTotal | TradeOS/core/data/backfill.py:118-134 | The count is the bars of the range plus those on interior batch boundaries |
| Replay.HistoricalReplay.ReadSlice | TradeOS/core/data/replay.py:120-168 | The month loop returns the stored bars of the closed window and no others, months in order and each month's bars in the order of its file |
| Replay.HistoricalReplay.ReadWindow | TradeOS/core/data/replay.py:366-384 | One slice per reader with data, in reader order |
| Replay.HistoricalReplay.Iterate | TradeOS/core/data/replay.py:344-386 | Yields the slices of all windows in order; none is empty, each holds bars of its own window only, in the order of its reader's files; nothing when the range is empty |
| Replay.SliceIsSound | TradeOS/core/data/replay.py:366-384 | A slice is not empty, its bars lie in its closed window, and they follow the files of its reader |
| Replay.SliceOrdered | TradeOS/core/data/replay.py:144-168 | Its bars are increasing when the reader's files are |
| Replay.DeliveriesAreCovering | TradeOS/core/data/replay.py:360-386 | A reader's stored bar is delivered, for each copy, once for every window that contains it |
| Replay.ReplayDelivers | TradeOS/core/data/replay.py:344-386 | Every stored bar of the range is delivered as often as it is stored, twice as often on an interior boundary, and no other bar |
| Replay.ReplayOrder | TradeOS/core/data/replay.py:349-355 | Slices come in time order, within one window in reader order |
| Replay.BackfilledReplay | TradeOS/core/data/replay.py:344-386 | Backfill into an empty store and replay delivers a bar exactly when it is the series' bar of a timestamp in both ranges, once, or twice on an interior boundary |
| DenseBin.CreatedFileTracks | qlib/scripts/dump_bin.py:227-269 | A new file starts at the symbol's first date, ends at its last, and cell k is the value of calendar entry header + k, or missing |
| DenseBin.ValueAtFirst | qlib/scripts/dump_bin.py:289-290 | Of rows of one date the first one counts |
| DenseBin.AfterAppend | qlib/scripts/dump_bin.py:505-509 | The rows after the recorded end are kept one by one, in their order |
| DenseBin.AfterOne | qlib/scripts/dump_bin.py:505-509 | A row is after the recorded end or it is not |
| DenseBin.UpdateAppends | qlib/scripts/dump_bin.py:263-266 | On an existing file an update appends the values of its dates in order and keeps header and cells |
| DenseBin.UpdatedFileTracks | qlib/scripts/dump_bin.py:245-269 | Appending the calendar entries right after the recorded end keeps every cell at its calendar entry |
| DenseBin.AlignedIffConsecutive | qlib/scripts/dump_bin.py:503-514 | For new rows without missing values, or with distinct calendar dates, the file an update leaves is aligned up to the new recorded end if and only if the new dates are the calendar entries right after the old end |
| DenseBin.SkippedDayShifts | qlib/scripts/dump_bin.py:503-514 | A symbol that skips a day gets its next value in the skipped day's cell |
| DenseBin.NewCalendarAscending | qlib/scripts/dump_bin.py:458-460 | The calendar stays strictly increasing and only grows at its end |
| DenseBin.NewCalendarDates | qlib/scripts/dump_bin.py:458-460 | The new calendar has the old entries and, of the row dates, exactly those after the last entry |
| DenseBin.TracksExtendedCalendar | qlib/scripts/dump_bin.py:458-460 | Files aligned with the old calendar are aligned with the new one |
| DenseBin.SymbolGrows | qlib/scripts/dump_bin.py:498-520 | Header and old cells of a symbol's file stay, whatever an update brings |
| DenseBin.NextSymbolTurned | qlib/scripts/dump_bin.py:498-520 | What any turn of a symbol comes to: nothing without later rows, else the last row date as end, and one appended cell per later row in date order, or a new file over exactly the calendar entries its rows span |
| DenseBin.SymbolStaysAligned | qlib/scripts/dump_bin.py:498-520 | A listed symbol stays aligned and a new one becomes so from its first date on, when its rows fit |
| DenseBin.SymbolAlignedIff | qlib/scripts/dump_bin.py:498-520 | A listed symbol with such new rows stays aligned if and only if they fit |
| DenseBin.RunStaysAligned | qlib/scripts/dump_bin.py:458-538 | Over any run of updates the calendar stays ascending and grows at its end, headers and cells stay, and a symbol whose rows always fit is aligned, whatever happens to others |
| DenseBin.FeatureDir.DumpAll | qlib/scripts/dump_bin.py:305-353 | The calendar is strictly increasing and holds exactly the dates that some row has; every symbol with rows is listed with an aligned file from its first to its last date, and no other is |
| DenseBin.FeatureDir.ApplySource | qlib/scripts/dump_bin.py:498-520 | One group of rows gives its own symbol its turn and leaves all others |
| DenseBin.FeatureDir.Update | qlib/scripts/dump_bin.py:458-538 | For any groups of rows: a date enters the calendar exactly when a row has it and it is after the last entry; every symbol with rows takes its turn and the others stay; it fails without change when there is no calendar |
| DenseBin.ReadBinTracks | qlib/qlib/utils/__init__.py:54-68 | Reading calendar positions returns the published values of exactly the asked positions that the file covers |
| Fills.RoundAtLeast | TradeOS/core/execution/simulation.py:202-203 | Rounding half to even on the 0.0001 grid never goes below a grid point that the value is not below |
| Fills.RoundAtMost | TradeOS/core/execution/simulation.py:202-203 | Nor above one that the value is not above |
| Fills.SlippageIsAdverse | TradeOS/core/execution/simulation.py:193-204 | With non-negative slippage a buy never fills below the rounded arrival price and a sell never above it |
| Fills.BuildFill | TradeOS/core/execution/simulation.py:193-220 | A fill carries the order, symbol, side and whole quantity of its intent |
| Fills.BuildFillExact | TradeOS/core/execution/simulation.py:193-220 | There is no fill exactly when needed metadata does not parse; else price and fees are the exact ones to the nearest step, from the intent's price, its metadata or the default, moved against the intent |
| Fills.ApplyAverages | TradeOS/core/execution/simulation.py:229-239 | The size moves by the fill, the sums grow, exposure is size times price, and unless the position goes flat the average is that of old average over old size and price over fill, to half a step |
| Fills.OutcomeTraced | TradeOS/core/execution/simulation.py:229-239 | Over any run of fills every position follows from the one before in that way |
| Fills.AverageCostWithinPrices | TradeOS/core/execution/simulation.py:229-236 | After any fills, also flips and re-openings, the rounded average cost lies between the lowest and highest fill price |
| Fills.OutcomeSums | TradeOS/core/execution/simulation.py:230-238 | Net quantity, traded quantity and fees are the sums over the fills |
| Fills.OpposingFillShrinks | TradeOS/core/execution/simulation.py:230-236 | An opposing fill within the position's size shrinks it by the fill and does not cross zero |
| Ledger.OrderRecord.AddTransition | TradeOS/core/execution/models.py:136-149 | The history stays a linked chain from submitted to the current status |
| Ledger.LinkedMeans | TradeOS/core/execution/models.py:136-149 | A linked history starts at the first status, each transition where the one before ended, and ends at the last |
| Ledger.MemoryEventSink.GetFillsForOrder | TradeOS/core/execution/sinks.py:69-70 | Returns the recorded fills of the order in order |
| Ledger.MemoryEventSink.GetPositionForSymbol | TradeOS/core/execution/sinks.py:72-74 | Returns a latest recorded position of the symbol, and none exactly when there is none |
| Ledger.SimulationEngine.UpdatePosition | TradeOS/core/execution/simulation.py:222-246 | The symbol's position object takes the fill, its average to half a step, a new one is created when needed, all others are unchanged |
| Ledger.SimulationEngine.Register | TradeOS/core/execution/simulation.py:77-92 | The intent is recorded and a new submitted order joins, the ledger staying valid |
| Ledger.SimulationEngine.Book | TradeOS/core/execution/simulation.py:95-121 | The order gets its one fill and is filled, position and sink follow, the ledger stays valid |
| Ledger.SimulationEngine.Submit | TradeOS/core/execution/simulation.py:69-128 | Every outcome: which error, what stays recorded when the fill cannot be built; otherwise the order with its fields and history, its one fill priced from the intent, and the position that follows from it, others unchanged |
| Ledger.SimulationEngine.Cancel | TradeOS/core/execution/simulation.py:130-145 | Refuses unknown and filled orders unchanged; otherwise cancelled with one more transition, even when the report cannot be recorded |
| Ledger.SimulationEngine.Modify | TradeOS/core/execution/simulation.py:147-170 | Refuses unknown and filled orders unchanged; otherwise changes only what is given |
| Ledger.SimulationEngine.CloseSink | TradeOS/core/execution/sinks.py:82-87 | Closing keeps everything recorded and the ledger valid |
| Ledger.SimulationEngine.Run | TradeOS/core/execution/simulation.py:69-170 | Over any calls: an order is filled iff it has exactly one fill, of its quantity; histories are chains; positions are the outcome of their fills; the log only grows; filled orders never change |
| Ledger.SimulationEngine.GetFillsForOrder | TradeOS/core/execution/simulation.py:181-182 | The engine's fills of an order are those the sink finds, exactly one if and only if it is filled |
| Ledger.SimulationEngine.GetPosition | TradeOS/core/execution/simulation.py:175-176 | The engine's position is the very object the sink finds, also when closed; it is the end of a trace over the symbol's fills, its sums and cost bounds hold; there is none iff the symbol has no fill |
| RiskFilters.PositionLimitNeverRaises | TradeOS/core/risk/filters/position_limit.py:10-35 | The result lies between zero and the quantity |
| RiskFilters.VetoesNeverRaise | TradeOS/core/risk/filters/loss_limit.py:16-68 | Loss and drawdown filters never raise a quantity and the slippage filter, given no estimate, passes it |
| RiskFilters.StandardOrder | TradeOS/core/risk/engine.py:91-100 | The seven filters, by name and rule, in order |
| RiskFilters.PositionLimitExact | TradeOS/core/risk/filters/position_limit.py:10-35 | What passes is worth at most its share of the equity at a price of at least a cent, and exactly that when cut |
| RiskFilters.LossLimitExact | TradeOS/core/risk/filters/loss_limit.py:16-68 | Vetoes exactly when the loss since entry exceeds its share of the equity or the day's loss its limit |
| RiskFilters.DrawdownLimitExact | TradeOS/core/risk/filters/drawdown_limit.py:10-38 | Vetoes exactly at or above the drawdown limit |
| RiskFilters.LiquidityCapExact | TradeOS/core/risk/filters/liquidity_cap.py:16-55 | Cuts to the daily volume times ten order shares, at most a fifth, and not without a volume |
| RiskFilters.ParticipationExact | TradeOS/core/risk/filters/participation_rate.py:16-55 | Cuts exactly what is worth more than a tenth of the daily value, to a tenth of it |
| RiskFilters.CorrelationExact | TradeOS/core/risk/filters/correlation_limit.py:13-86 | A breach in the same direction leaves a share that falls with the excess, not below a quarter, to the nearest millionth; vetoes exactly when nothing is left |
| RiskFilters.LiquidityCapNeverRaises | TradeOS/core/risk/filters/liquidity_cap.py:16-55 | The result lies between zero and the quantity |
| RiskFilters.ParticipationNeverRaises | TradeOS/core/risk/filters/participation_rate.py:16-55 | The result lies between zero and the quantity, also where volume is below the order |
| RiskFilters.CorrelationWithin | TradeOS/core/risk/filters/correlation_limit.py:13-86 | From a quantity within a bound that is at most half a millionth above the six-decimal grid, the result stays within the bound |
| RiskFilters.CorrelationKeeps | TradeOS/core/risk/filters/correlation_limit.py:13-86 | So a quantity that close to the grid is never raised |
| RiskFilters.CorrelationRaises | TradeOS/core/risk/filters/correlation_limit.py:13-86 | Every other quantity is raised by some reading |
| RiskFilters.StandardNeverRaises | TradeOS/core/risk/engine.py:91-100 | None of the seven filters raises a quantity, the correlation filter under its exact condition |
| RiskFilters.StandardWithin | TradeOS/core/risk/engine.py:91-100 | None of the seven filters carries a quantity past such a bound |
| RiskEngine.ChosenPositive | TradeOS/core/risk/engine.py:417-453 | A size is chosen iff some calculator gives a positive one, and it is one of those |
| RiskEngine.ChosenAt | TradeOS/core/risk/engine.py:417-453 | It is the first positive volatility target, or where there is none the first positive size |
| RiskEngine.ChosenInOrder | TradeOS/core/risk/engine.py:81-89 | With volatility targeting at the head of the list the choice is the first positive size |
| RiskEngine.RunSizingChain | TradeOS/core/risk/engine.py:395-453 | Returns the first positive volatility target, otherwise the first positive size, otherwise zero |
| RiskEngine.TrailTelescopes | TradeOS/core/risk/engine.py:522-539 | The adjustments lead from the entering quantity to the leaving one, each starting where the one before ended |
| RiskEngine.ReasonIffFailure | TradeOS/core/risk/engine.py:541-543 | There is a failure reason iff some filter failed on what reached it |
| RiskEngine.AuditedExplained | TradeOS/core/risk/engine.py:491-549 | The checks hand the quantity from filter to filter, every change and no other is listed with its kind, and veto and reason are those of the last failing filter or of an empty quantity |
| RiskEngine.RunFilters | TradeOS/core/risk/engine.py:459-549 | One check per filter, one adjustment per change, veto iff a filter fails or nothing is left, its reason, all told from the checks and the filters alone; no result iff a quantity goes negative |
| RiskEngine.NeverAboveEntering | TradeOS/core/risk/engine.py:491-539 | Filters that keep or lower what reaches them never exceed the entering quantity at any point |
| RiskEngine.NeverNegative | TradeOS/core/risk/schemas.py:200-208 | Such filters never produce a quantity that the adjustment record refuses |
| RiskEngine.StandardKeepsOrLowers | TradeOS/core/risk/engine.py:91-100 | The standard chain does so when what reaches the correlation filter is close to its grid |
| RiskEngine.StandardNeverAbove | TradeOS/core/risk/engine.py:491-539 | The whole standard chain never carries a quantity past such a bound |
| RiskEngine.BuildSlices | TradeOS/core/risk/planner.py:344-375 | Windows tile an interval within the limit; quantities add up within half a cent per slice; none iff the whole is at most half a cent per slice |
| RiskEngine.MappingTable | TradeOS/core/risk/engine.py:209-258 | Which decisions may trade, and the direction and action of each |
| RiskEngine.AlgorithmTable | TradeOS/core/risk/planner.py:254-279 | Each algorithm in exactly its case; exits and reductions are market orders |
| RiskEngine.PriceTable | TradeOS/core/risk/planner.py:317-341 | A limit is one and a half impacts beyond the price to the nearest cent, never on the near side of a whole cent, and a worst price not on the near side of the limit |
| RiskEngine.LimitsBeyondIff | TradeOS/core/risk/planner.py:326-330 | Whatever the impact, limits are on the far side of the price if and only if rounding the price to cents does not bring it to the near side |
| RiskEngine.LongLimitBelowPrice | TradeOS/core/risk/planner.py:326-330 | A long limit at 10.004 without an impact is 10 |
| RiskEngine.MakePlan | TradeOS/core/risk/planner.py:109-230 | Targets the plan's quantity; algorithm and prices are those of the tables; scheduled algorithms have that schedule and others no slices; none iff a price or a slice is refused |
| RiskEngine.Calculate | TradeOS/core/risk/engine.py:183-363 | Hold, no-trade and exits or reductions without a position give the zero plan; others have the direction and action of the table, the chosen size or for closings the smaller of it and the position, and the checks of every filter; quantity > 0 iff no veto iff an execution plan exists for it; no plan exactly when a quantity, a slice or a price is refused |
| RiskEngine.ReducingPlanShrinks | TradeOS/core/risk/engine.py:217-300 | Executing an exit or reduction shrinks the position by the plan's quantity and does not cross zero |
| RiskEngine.OpeningPlanMoves | TradeOS/core/risk/engine.py:209-216 | Executing an opening plan moves the position in the direction of the bias by the plan's quantity |
| RiskEngine.ReductionSafe | TradeOS/core/risk/engine.py:288-324 | Every exit or reduction of a position that is at most half a millionth above the grid shrinks it by the plan's quantity and does not cross zero, in every market and under every limit |
| RiskEngine.ReductionsSafeIff | TradeOS/core/risk/engine.py:288-324 | That holds of a position if and only if its size is at most half a millionth above the grid |
| RiskEngine.ExitCanCrossZero | TradeOS/core/risk/engine.py:288-324 | For every other position, long or short, and for exits and reductions, there are a market, limits, a plan that the engine makes of it and a fill that crosses zero |
| DocSplice.ParseItems | nautilus_trader/python/generate_docstrings.py:268-350 | One item per wrapper function, in order, with the first and last comment of the header block above it and the insertion line |
| DocSplice.StartsMean | nautilus_trader/python/generate_docstrings.py:289-302 | What makes a line a comment or an attribute |
| DocSplice.ClosesMeans | nautilus_trader/python/generate_docstrings.py:291-293 | A line closes an attribute when its last character that is not white space is a bracket |
| DocSplice.ParsedSeparated | nautilus_trader/python/generate_docstrings.py:288-350 | Parsed ranges are ordered and disjoint, each between two function lines |
| DocSplice.SpliceStep | nautilus_trader/python/generate_docstrings.py:386-434 | When an item's turn comes, its lines are still the original ones and its edit is the next step of the simultaneous edit |
| DocSplice.SpliceOne | nautilus_trader/python/generate_docstrings.py:405-434 | The new comment, one line per documentation line, stands in its place and all other lines as before; a change exactly when there is documentation and another comment or none |
| DocSplice.SpliceAll | nautilus_trader/python/generate_docstrings.py:386-434 | The reverse loop equals all edits applied at once to the original lines; updates are the items that something changes for; no updates means no change |
| DocSplice.FormatLines | nautilus_trader/python/generate_docstrings.py:255-265 | Each comment line is the function line's leading white space, three slashes, and after a space the text, if any |
| DocSplice.CommentReadBack | nautilus_trader/python/generate_docstrings.py:255-265 | Reading a comment back gives the documentation |
| DocSplice.RewrittenAssembled | nautilus_trader/python/generate_docstrings.py:386-434 | Every comment stands at its place and every other line, in its order, between them |
| DocSplice.CodeSurvives | nautilus_trader/python/generate_docstrings.py:386-434 | Non-comment lines all survive in order iff only comment lines are replaced, and never multiply |
| DocSplice.ProcessFile | nautilus_trader/python/generate_docstrings.py:376-434 | Parsing and splicing a whole file: every documented function has its documentation above it, as a comment that reads back to it, every other line stays in its order, and code survives under the exact condition |
| DocSplice.AttributeBetweenDocsLost | nautilus_trader/python/generate_docstrings.py:296-300 | The parse of a function with an attribute between two comment lines, and that the attribute is gone after a new comment is spliced in |
| Stubs.SplitSignatureParams | nautilus_trader/python/generate_stubs.py:444-466 | Joining the pieces gives the text up to one trailing comma; no piece has a top-level comma; all but the last are balanced |
| Stubs.BracketsKeepCommas | nautilus_trader/python/generate_stubs.py:451-458 | Round, angle and square brackets each keep the commas between them |
| Stubs.FilterSafeDefaults | nautilus_trader/python/generate_stubs.py:427-441 | Keeps exactly the defaults of the longest suffix without a required parameter |
| Stubs.ToScreamingSnakeCase | nautilus_trader/python/generate_stubs.py:55-99 | The word loop computes the left-to-right conversion that the lemmas below are about; of a name made of words it gives the words in capitals, joined by underscores |
| Stubs.SnakeOfWords | nautilus_trader/python/generate_stubs.py:70-94 | A name made of capitalised words and runs of capitals is converted to the words in capitals, joined by underscores |
| Stubs.WordsOf | nautilus_trader/python/generate_stubs.py:70-94 | Every name of letters and digits is made of such words |
| Stubs.SnakeAfterUnderscore | nautilus_trader/python/generate_stubs.py:70-75 | What is on the two sides of an underscore is converted by itself |
| Stubs.SnakeKeepsLetters | nautilus_trader/python/generate_stubs.py:55-99 | Apart from underscores all characters stay, in order, in upper case |
| Stubs.SnakeIsClean | nautilus_trader/python/generate_stubs.py:55-99 | The result is upper-case words separated by single underscores |
| Stubs.SnakeOfClean | nautilus_trader/python/generate_stubs.py:70-94 | A clean name is kept iff it has no word break, and otherwise grows |
| Stubs.SnakeTwice | nautilus_trader/python/generate_stubs.py:55-99 | Converting twice is converting once iff the converted name has no word break left |
| Stubs.SnakeTwiceIff | nautilus_trader/python/generate_stubs.py:55-99 | Converting twice is converting once if and only if no digit of the name runs into a small letter and no letter followed by a small letter runs into a digit |
| Stubs.SnakeIdempotent | nautilus_trader/python/generate_stubs.py:55-99 | It is idempotent on names without digits |
| Stubs.DigitSplits | nautilus_trader/python/generate_stubs.py:83-89 | `Ab1` converts to `AB1`, which converts to `A_B1` |

## Left out

- PitDump.DumpField: takes rows already sorted by date.
- PitDump.PitFiles.DumpRow: what follows when a quarter 0 row of the first year meets data past year + 20 bytes is modelled only where the year is the offset of a record (`QuarterZeroJoins`); elsewhere the walk reads across records and need not end.
- PitDump.CursorMustBeAtEnd: the only result about update mode; its index extension and overlap removal are not modelled, since the reopened cursor breaks the invariant.
- PitQuery.ReadPeriodData: a resume cursor has to come from an earlier date for the same period, as its documentation says.
- Replay.HistoricalReplay.Iterate: an interval of zero or less over a non-empty range makes the loop endless and is left out, as are `stop` and `seek` in the middle of a replay.
- DenseBin.AlignedIffConsecutive: new rows that have missing values together with repeated or off-calendar dates can look aligned by accident and are left out.
- DenseBin.FeatureDir.Update: an unlisted symbol is taken to have no file left from earlier.
- DenseBin.FeatureDir.DumpAll: one field per symbol, one source per symbol; the file header is exact although a float32 is so only up to 2^24.
- Ledger.SimulationEngine.Submit: order ids are taken to be new, which the original leaves to random ids.
- RiskEngine.Calculate: the sizes that the calculators return are parameters, not their formulas; impact, volatility and urgency are given values; refusals of scores, rates and the pre-trade report are not modelled.
- Backfill.BackfillManager.FetchBatch: a write that fails after some months are stored is not modelled; failures of validation or writing come before anything is stored.
- Stubs.ToScreamingSnakeCase: letters, digits and white space are those of ASCII.
- Float values of point-in-time records are eight opaque bytes; their encoding is not modelled.
- Decimals and floats are exact rationals: the 28-digit decimal context, NaN and infinities are not modelled.
- One symbol and time frame per bar store; the calendar is any monotone function to months; parquet encoding is not modelled.
- Tick and trade datasets, the date-range clamp of a backfill without `force` (its call passes arguments that do not fit the callee), and rate limits.
- Logging is taken to do nothing; calls that pass keyword fields need a logger that accepts them.
- Realized profit, opening timestamps, source lists, callbacks and other sinks of the execution engine: they would only add easy members.
- The search of the correlation matrix and of matching directions: the filter gets the resolved correlation, if any, and whether directions agree.
- The detail texts of filter results: only whether a filter gives one matters to the reason of a veto.
- Execution scores, impact estimates and pre-trade reports of the planner: floating-point heuristics with easy ranges.
- The lookup of source comments, their transformation, and the function pattern of the doc tool are arbitrary functions; `impl` and brace tracking only feed that lookup.
- The rest of the stub generator (regular-expression rewriting of generated text).
- Arbitration, registries, profiles, runtime, routers, user interfaces, command lines, build scripts, tutorials and trained models.
