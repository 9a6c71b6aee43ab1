/**
 Dense field files: a calendar, and per symbol a header with the calendar index of its first cell followed by one
 cell per calendar entry.  `DumpDataAll` writes them, `DumpDataUpdate` appends to them, `read_bin` reads them.
 */
module DenseBin {
  import opened Common

  type Date = int

  /** A float32 cell; `None` is the missing value. */
  type Cell = Option<real>

  datatype Row = Row(date: Date, value: Cell)

  datatype FieldFile = FieldFile(header: nat, cells: seq<Cell>)

  /** The value of a date: that of its first row, as later duplicates are dropped. */
  function ValueAt(rows: seq<Row>, d: Date): Cell {
    if rows == [] then None
    else if rows[0].date == d then rows[0].value
    else ValueAt(rows[1..], d)
  }

  function Values(rows: seq<Row>, dates: seq<Date>): (cells: seq<Cell>)
    ensures |cells| == |dates|
    ensures forall k :: 0 <= k < |dates| ==> cells[k] == ValueAt(rows, dates[k])
  {
    seq(|dates|, k requires 0 <= k < |dates| => ValueAt(rows, dates[k]))
  }

  function Dates(rows: seq<Row>): (dates: seq<Date>)
    ensures |dates| == |rows|
    ensures forall i :: 0 <= i < |rows| ==> dates[i] == rows[i].date
  {
    seq(|rows|, i requires 0 <= i < |rows| => rows[i].date)
  }

  function Least(dates: seq<Date>): (d: Date)
    requires dates != []
    ensures d in dates && forall x :: x in dates ==> d <= x
  {
    if |dates| == 1 then dates[0]
    else
      var rest := Least(dates[1..]);
      assert forall x :: x in dates ==> x == dates[0] || x in dates[1..];
      if dates[0] <= rest then dates[0] else rest
  }

  function Greatest(dates: seq<Date>): (d: Date)
    requires dates != []
    ensures d in dates && forall x :: x in dates ==> x <= d
  {
    if |dates| == 1 then dates[0]
    else
      var rest := Greatest(dates[1..]);
      assert forall x :: x in dates ==> x == dates[0] || x in dates[1..];
      if dates[0] >= rest then dates[0] else rest
  }

  ghost predicate Ascending(dates: seq<Date>) {
    forall i, j :: 0 <= i < j < |dates| ==> dates[i] < dates[j]
  }

  /** The entries of a list that lie in a closed range. */
  function Clip(cal: seq<Date>, lo: Date, hi: Date): (dates: seq<Date>)
    ensures forall d :: d in dates <==> d in cal && lo <= d <= hi
  {
    if cal == [] then []
    else
      var rest := Clip(cal[1..], lo, hi);
      assert forall d :: d in cal <==> d == cal[0] || d in cal[1..];
      if lo <= cal[0] <= hi then [cal[0]] + rest else rest
  }

  function IndexOf(cal: seq<Date>, d: Date): (i: nat)
    requires d in cal
    ensures i < |cal| && cal[i] == d && forall j :: 0 <= j < i ==> cal[j] != d
  {
    if cal[0] == d then 0 else 1 + IndexOf(cal[1..], d)
  }

  // ----- sorting dates

  function Insert(d: Date, dates: seq<Date>): (r: seq<Date>)
    ensures |r| == |dates| + 1
    ensures forall x :: x in r <==> x == d || x in dates
  {
    if dates == [] || d <= dates[0] then [d] + dates
    else
      assert forall x :: x in dates <==> x == dates[0] || x in dates[1..];
      [dates[0]] + Insert(d, dates[1..])
  }

  /** Sorted, duplicates kept. */
  function Sort(dates: seq<Date>): (r: seq<Date>)
    ensures |r| == |dates|
    ensures forall x :: x in r <==> x in dates
  {
    if dates == [] then []
    else
      assert forall x :: x in dates <==> x == dates[0] || x in dates[1..];
      Insert(dates[0], Sort(dates[1..]))
  }

  /** Sorted, each date once. */
  function SortUnique(dates: seq<Date>): (r: seq<Date>)
    ensures forall x :: x in r <==> x in dates
  {
    if dates == [] then []
    else
      assert forall x :: x in dates <==> x == dates[0] || x in dates[1..];
      var rest := SortUnique(dates[1..]);
      if dates[0] in rest then rest else Insert(dates[0], rest)
  }

  lemma {:induction false} InsertAscending(d: Date, dates: seq<Date>)
    requires Ascending(dates) && d !in dates
    ensures Ascending(Insert(d, dates))
  {
    if dates == [] || d <= dates[0] {
    } else {
      assert forall i :: 0 <= i < |dates[1..]| ==> dates[1..][i] == dates[i + 1];
      InsertAscending(d, dates[1..]);
      var rest := Insert(d, dates[1..]);
      forall i | 0 <= i < |rest|
        ensures dates[0] < rest[i]
      {
        assert rest[i] in rest;
      }
    }
  }

  lemma {:induction false} SortUniqueAscending(dates: seq<Date>)
    ensures Ascending(SortUnique(dates))
  {
    if dates != [] {
      SortUniqueAscending(dates[1..]);
      if dates[0] !in SortUnique(dates[1..]) {
        InsertAscending(dates[0], SortUnique(dates[1..]));
      }
    }
  }

  // ----- one symbol's file

  /** Aligns rows to the calendar entries in their range and writes or extends the file. */
  function DataToBin(file: Option<FieldFile>, update: bool, rows: seq<Row>, cal: seq<Date>): Option<FieldFile> {
    if rows == [] || cal == [] then file
    else
      var dates := Clip(cal, Least(Dates(rows)), Greatest(Dates(rows)));
      if dates == [] then file
      else if file.Some? && update then Some(file.value.(cells := file.value.cells + Values(rows, dates)))
      else Some(FieldFile(IndexOf(cal, Least(dates)), Values(rows, dates)))
  }

  /** The rows an update can still add: those dated after the recorded end. */
  function After(rows: seq<Row>, end: Date): (r: seq<Row>)
    ensures forall x :: x in r <==> x in rows && x.date > end
  {
    if rows == [] then []
    else
      assert forall x :: x in rows <==> x == rows[0] || x in rows[1..];
      if rows[0].date > end then [rows[0]] + After(rows[1..], end) else After(rows[1..], end)
  }

  function UpdateDates(rows: seq<Row>, end: Date): seq<Date> {
    Sort(Dates(After(rows, end)))
  }

  /** Cell k of the file is the value of calendar entry header + k, and the last cell is the recorded end. */
  ghost predicate Tracks(cal: seq<Date>, file: FieldFile, published: seq<Row>, end: Date) {
    && file.cells != []
    && file.header + |file.cells| <= |cal|
    && cal[file.header + |file.cells| - 1] == end
    && (forall r :: r in published ==> r.date <= end)
    && (forall k :: 0 <= k < |file.cells| ==> file.cells[k] == ValueAt(published, cal[file.header + k]))
  }

  /** In an ascending list, the entries between two of them are a slice. */
  lemma ClipIsSlice(cal: seq<Date>, i: nat, j: nat)
    requires Ascending(cal) && i <= j < |cal|
    ensures Clip(cal, cal[i], cal[j]) == cal[i..j + 1]
  {
    hide Ascending, Clip;
    AscendingOrder(cal, i, j);
    var a, b := ClipBounds(cal, cal[i], cal[j]);
    assert cal[i] <= cal[i] <= cal[j] && cal[i] <= cal[j] <= cal[j];
    AscendingOrder(cal, i, a);
    AscendingOrder(cal, b - 1, j);
    assert cal[i] <= cal[a] <= cal[j] && cal[i] <= cal[b - 1] <= cal[j];
  }

  lemma AscendingTail(cal: seq<Date>)
    requires Ascending(cal) && cal != []
    ensures Ascending(cal[1..]) && forall k :: 0 <= k < |cal[1..]| ==> cal[1..][k] > cal[0] && cal[1..][k] >= cal[1..][0]
  {
    assert forall k :: 0 <= k < |cal[1..]| ==> cal[1..][k] == cal[k + 1];
  }

  lemma {:induction false} ClipEverything(cal: seq<Date>, lo: Date, hi: Date)
    requires forall d :: d in cal ==> lo <= d <= hi
    ensures Clip(cal, lo, hi) == cal
  {
    if cal != [] {
      assert forall d :: d in cal[1..] ==> d in cal;
      ClipEverything(cal[1..], lo, hi);
      assert cal[0] in cal && cal == [cal[0]] + cal[1..];
    }
  }

  lemma LeastOfAscending(dates: seq<Date>)
    requires Ascending(dates) && dates != []
    ensures Least(dates) == dates[0]
  {
    var i :| 0 <= i < |dates| && dates[i] == Least(dates);
    assert dates[0] in dates;
  }

  lemma IndexInAscending(cal: seq<Date>, i: nat)
    requires Ascending(cal) && i < |cal|
    ensures IndexOf(cal, cal[i]) == i
  {
  }

  /** The calendar entries between a symbol's first and last date. */
  lemma SymbolSpan(cal: seq<Date>, rows: seq<Row>) returns (i: nat, j: nat)
    requires Ascending(cal) && rows != [] && forall r :: r in rows ==> r.date in cal
    ensures i <= j < |cal| && cal[i] == Least(Dates(rows)) && cal[j] == Greatest(Dates(rows))
  {
    var lo, hi := Least(Dates(rows)), Greatest(Dates(rows));
    DatesMembers(rows);
    assert lo in Dates(rows) && hi in Dates(rows);
    i, j := IndexOf(cal, lo), IndexOf(cal, hi);
    AscendingOrder(cal, i, j);
  }

  lemma AscendingOrder(cal: seq<Date>, i: nat, j: nat)
    requires Ascending(cal) && i < |cal| && j < |cal|
    ensures cal[i] <= cal[j] <==> i <= j
  {
  }

  lemma SliceTracks(cal: seq<Date>, rows: seq<Row>, i: nat, j: nat)
    requires i <= j < |cal| && forall r :: r in rows ==> r.date <= cal[j]
    ensures Tracks(cal, FieldFile(i, Values(rows, cal[i..j + 1])), rows, cal[j])
  {
  }

  /** A new file starts at the symbol's first date, ends at its last, and has a cell for every calendar entry between. */
  lemma CreatedFileTracks(cal: seq<Date>, rows: seq<Row>, update: bool)
    requires Ascending(cal) && rows != [] && forall r :: r in rows ==> r.date in cal
    ensures var file := DataToBin(None, update, rows, cal);
            && file.Some? && Tracks(cal, file.value, rows, Greatest(Dates(rows)))
            && cal[file.value.header] == Least(Dates(rows))
  {
    hide Tracks, Values, Dates, Clip, IndexOf, Least, Greatest;
    var i, j := SymbolSpan(cal, rows);
    ClipIsSlice(cal, i, j);
    LeastOfAscending(cal[i..j + 1]);
    IndexInAscending(cal, i);
    RowsUpTo(rows);
    SliceTracks(cal, rows, i, j);
    hide Ascending;
    assert DataToBin(None, update, rows, cal) == Some(FieldFile(i, Values(rows, cal[i..j + 1])));
  }

  lemma RowsUpTo(rows: seq<Row>)
    requires rows != []
    ensures forall r :: r in rows ==> Least(Dates(rows)) <= r.date <= Greatest(Dates(rows))
  {
    forall r | r in rows
      ensures r.date in Dates(rows)
    {
      DatesMembers(rows);
    }
  }

  lemma DatesMembers(rows: seq<Row>)
    ensures forall d :: d in Dates(rows) <==> exists r :: r in rows && r.date == d
  {
    forall d | d in Dates(rows)
      ensures exists r :: r in rows && r.date == d
    {
      var i :| 0 <= i < |rows| && Dates(rows)[i] == d;
      assert rows[i] in rows;
    }
    forall r | r in rows
      ensures r.date in Dates(rows)
    {
      var i :| 0 <= i < |rows| && rows[i] == r;
      assert Dates(rows)[i] == r.date;
    }
  }

  /** The calendar only grows at its end, so old headers keep their meaning. */
  lemma TracksExtendedCalendar(cal: seq<Date>, more: seq<Date>, file: FieldFile, published: seq<Row>, end: Date)
    requires Tracks(cal, file, published, end)
    ensures Tracks(cal + more, file, published, end)
  {
  }

  /** The dates an update appends are the calendar entries right after the recorded end. */
  ghost predicate Consecutive(cal: seq<Date>, file: FieldFile, dates: seq<Date>) {
    var next := file.header + |file.cells|;
    next + |dates| <= |cal| && dates == cal[next..next + |dates|]
  }

  lemma UpdateAppends(file: FieldFile, rows: seq<Row>, end: Date)
    requires UpdateDates(rows, end) != []
    ensures DataToBin(Some(file), true, rows, UpdateDates(rows, end)) ==
            Some(FieldFile(file.header, file.cells + Values(rows, UpdateDates(rows, end))))
  {
    var dates := UpdateDates(rows, end);
    DatesMembers(rows);
    DatesMembers(After(rows, end));
    assert dates[0] in dates;
    assert rows != [];
    forall d | d in dates
      ensures Least(Dates(rows)) <= d <= Greatest(Dates(rows))
    {
      assert d in Dates(rows);
    }
    ClipEverything(dates, Least(Dates(rows)), Greatest(Dates(rows)));
  }

  lemma {:induction false} ValueAtAppend(a: seq<Row>, b: seq<Row>, d: Date)
    ensures (exists r :: r in a && r.date == d) ==> ValueAt(a + b, d) == ValueAt(a, d)
    ensures (forall r :: r in a ==> r.date != d) ==> ValueAt(a + b, d) == ValueAt(b, d)
  {
    if a == [] {
      assert a + b == b;
    } else {
      assert (a + b)[1..] == a[1..] + b;
      assert forall r :: r in a <==> r == a[0] || r in a[1..];
      ValueAtAppend(a[1..], b, d);
    }
  }

  lemma {:induction false} ValueAtAfter(rows: seq<Row>, end: Date, d: Date)
    ensures ValueAt(After(rows, end), d) == if d > end then ValueAt(rows, d) else None
  {
    if rows != [] {
      ValueAtAfter(rows[1..], end, d);
    }
  }

  lemma {:induction false} ValueAtMissing(rows: seq<Row>, d: Date)
    requires forall r :: r in rows ==> r.date != d
    ensures ValueAt(rows, d) == None
  {
    if rows != [] {
      assert forall r :: r in rows[1..] ==> r in rows;
      ValueAtMissing(rows[1..], d);
    }
  }

  /** Adding rows dated after `end` leaves the values up to `end` alone and supplies those after it. */
  lemma ValueAtPublished(published: seq<Row>, rows: seq<Row>, end: Date, d: Date)
    requires forall r :: r in published ==> r.date <= end
    ensures ValueAt(published + After(rows, end), d) == if d <= end then ValueAt(published, d) else ValueAt(rows, d)
  {
    ValueAtAppend(published, After(rows, end), d);
    ValueAtAfter(rows, end, d);
    if forall r :: r in published ==> r.date != d {
      ValueAtMissing(published, d);
    }
  }

  /** Every update date comes after the recorded end. */
  lemma UpdateDatesAfter(rows: seq<Row>, end: Date, i: nat)
    requires i < |UpdateDates(rows, end)|
    ensures rows != [] && UpdateDates(rows, end)[i] > end && UpdateDates(rows, end)[i] in Dates(rows)
  {
    var dates := UpdateDates(rows, end);
    assert dates[i] in dates;
    DatesMembers(rows);
    DatesMembers(After(rows, end));
  }

  lemma UpdatedCells(cal: seq<Date>, file: FieldFile, published: seq<Row>, end: Date, rows: seq<Row>, k: nat)
    requires Ascending(cal) && Tracks(cal, file, published, end) && Consecutive(cal, file, UpdateDates(rows, end))
    requires k < |file.cells| + |UpdateDates(rows, end)|
    ensures (file.cells + Values(rows, UpdateDates(rows, end)))[k] == ValueAt(published + After(rows, end), cal[file.header + k])
  {
    hide UpdateDates, ValueAt, After;
    ValueAtPublished(published, rows, end, cal[file.header + k]);
    if k >= |file.cells| {
      UpdateDatesAfter(rows, end, k - |file.cells|);
    }
  }

  /** Appending the calendar entries right after the recorded end keeps the file aligned. */
  lemma UpdatedFileTracks(cal: seq<Date>, file: FieldFile, published: seq<Row>, end: Date, rows: seq<Row>)
    requires Ascending(cal) && Tracks(cal, file, published, end)
    requires UpdateDates(rows, end) != [] && Consecutive(cal, file, UpdateDates(rows, end))
    ensures rows != []
    ensures var file' := FieldFile(file.header, file.cells + Values(rows, UpdateDates(rows, end)));
            Tracks(cal, file', published + After(rows, end), Greatest(Dates(rows)))
  {
    hide UpdateDates, Dates, Greatest, ValueAt, After, Ascending, Values;
    var dates := UpdateDates(rows, end);
    UpdateDatesAfter(rows, end, 0);
    LastUpdate(cal, file, rows, end);
    RowsUpTo(rows);
    forall k | 0 <= k < |file.cells| + |dates|
      ensures (file.cells + Values(rows, dates))[k] == ValueAt(published + After(rows, end), cal[file.header + k])
    {
      UpdatedCells(cal, file, published, end, rows, k);
    }
  }

  lemma LastUpdate(cal: seq<Date>, file: FieldFile, rows: seq<Row>, end: Date)
    requires Ascending(cal) && rows != []
    requires UpdateDates(rows, end) != [] && Consecutive(cal, file, UpdateDates(rows, end))
    ensures var dates := UpdateDates(rows, end); dates[|dates| - 1] == Greatest(Dates(rows)) > end
  {
    hide UpdateDates, Dates, Ascending;
    var dates, hi := UpdateDates(rows, end), Greatest(Dates(rows));
    UpdateDatesAfter(rows, end, |dates| - 1);
    HiUpdated(rows, end);
    AscendingSlice(cal, file.header + |file.cells|, dates);
    assert hi in dates;
  }

  lemma AscendingSlice(cal: seq<Date>, from: nat, dates: seq<Date>)
    requires Ascending(cal) && from + |dates| <= |cal| && dates == cal[from..from + |dates|] && dates != []
    ensures forall d :: d in dates ==> d <= dates[|dates| - 1]
  {
    forall i | 0 <= i < |dates|
      ensures dates[i] <= dates[|dates| - 1]
    {
      assert cal[from + i] <= cal[from + |dates| - 1];
    }
  }

  lemma HiUpdated(rows: seq<Row>, end: Date)
    requires rows != [] && Greatest(Dates(rows)) > end
    ensures Greatest(Dates(rows)) in UpdateDates(rows, end)
  {
    DatesMembers(rows);
    DatesMembers(After(rows, end));
  }

  lemma {:induction false} SortAscending(dates: seq<Date>)
    requires forall i, j :: 0 <= i < j < |dates| ==> dates[i] != dates[j]
    ensures Ascending(Sort(dates))
  {
    if dates != [] {
      SortAscending(dates[1..]);
      InsertAscending(dates[0], Sort(dates[1..]));
    }
  }

  /** A calendar entry after entry `i - 1` is not before entry `i`. */
  lemma NextEntry(cal: seq<Date>, i: nat, d: Date)
    requires Ascending(cal) && d in cal && 0 < i < |cal|
    ensures cal[i - 1] < d ==> cal[i] <= d
    ensures d < cal[i] ==> d <= cal[i - 1]
  {
    var j :| 0 <= j < |cal| && cal[j] == d;
    AscendingOrder(cal, i, j);
    AscendingOrder(cal, j, i - 1);
  }

  lemma {:induction false} NotBefore(cal: seq<Date>, dates: seq<Date>, from: nat, k: nat)
    requires Ascending(cal) && Ascending(dates) && forall d :: d in dates ==> d in cal
    requires 0 < from && from + |dates| <= |cal| && k < |dates| && cal[from - 1] < dates[0]
    ensures cal[from + k] <= dates[k]
  {
    assert dates[k] in dates;
    if k > 0 {
      NotBefore(cal, dates, from, k - 1);
    }
    NextEntry(cal, from + k, dates[k]);
  }

  lemma {:induction false} NotAfter(cal: seq<Date>, dates: seq<Date>, from: nat, k: nat)
    requires Ascending(cal) && Ascending(dates) && forall d :: d in dates ==> d in cal
    requires from + |dates| <= |cal| && k < |dates| && dates[|dates| - 1] == cal[from + |dates| - 1]
    ensures dates[k] <= cal[from + k]
    decreases |dates| - k
  {
    if k + 1 < |dates| {
      assert dates[k] in dates;
      NotAfter(cal, dates, from, k + 1);
      NextEntry(cal, from + k + 1, dates[k]);
    }
  }

  ghost predicate DistinctDates(rows: seq<Row>) {
    forall i, j :: 0 <= i < j < |rows| ==> rows[i].date != rows[j].date
  }

  lemma DistinctUpdates(cal: seq<Date>, rows: seq<Row>, end: Date)
    requires forall r :: r in After(rows, end) ==> r.date in cal
    requires DistinctDates(After(rows, end))
    ensures Ascending(UpdateDates(rows, end))
    ensures forall d :: d in UpdateDates(rows, end) ==> d in cal
  {
    hide Ascending;
    var added := After(rows, end);
    forall i, j | 0 <= i < j < |added|
      ensures Dates(added)[i] != Dates(added)[j]
    {
      assert added[i].date != added[j].date;
    }
    SortAscending(Dates(added));
    DatesMembers(added);
  }

  /** The greatest row date is the last of distinct update dates. */
  lemma LastOfDistinct(rows: seq<Row>, end: Date)
    requires UpdateDates(rows, end) != [] && Ascending(UpdateDates(rows, end))
    ensures rows != []
    ensures var dates := UpdateDates(rows, end); dates[|dates| - 1] == Greatest(Dates(rows))
  {
    hide UpdateDates, Dates;
    var dates := UpdateDates(rows, end);
    UpdateDatesAfter(rows, end, |dates| - 1);
    HiUpdated(rows, end);
    var i :| 0 <= i < |dates| && dates[i] == Greatest(Dates(rows));
  }

  /**
   Could alignment be an accident?  Not for new rows with distinct dates of the calendar, nor for rows without missing
   values, whatever their dates.
   */
  ghost predicate Telling(cal: seq<Date>, added: seq<Row>) {
    || (DistinctDates(added) && forall r :: r in added ==> r.date in cal)
    || Complete(added)
  }

  ghost predicate Complete(rows: seq<Row>) {
    forall r :: r in rows ==> r.value.Some?
  }

  /** The file that an update leaves is aligned, its last cell at the new recorded end. */
  ghost predicate TracksUpdated(cal: seq<Date>, file: FieldFile, published: seq<Row>, end: Date, rows: seq<Row>) {
    && rows != []
    && var file' := FieldFile(file.header, file.cells + Values(rows, UpdateDates(rows, end)));
       Tracks(cal, file', published + After(rows, end), Greatest(Dates(rows)))
  }

  /** For such rows, an update leaves the file aligned exactly when it appends the calendar entries right after the old end. */
  lemma AlignedIffConsecutive(cal: seq<Date>, file: FieldFile, published: seq<Row>, end: Date, rows: seq<Row>)
    requires Ascending(cal) && Tracks(cal, file, published, end) && UpdateDates(rows, end) != []
    requires Telling(cal, After(rows, end))
    ensures TracksUpdated(cal, file, published, end, rows) <==> Consecutive(cal, file, UpdateDates(rows, end))
  {
    hide UpdateDates, Dates, Greatest, ValueAt, Values, Ascending, Consecutive, Tracks, DistinctDates, Complete;
    if Consecutive(cal, file, UpdateDates(rows, end)) {
      UpdatedFileTracks(cal, file, published, end, rows);
    }
    if TracksUpdated(cal, file, published, end, rows) {
      if Complete(After(rows, end)) {
        CompleteConsecutive(cal, file, published, end, rows);
      } else {
        DistinctConsecutive(cal, file, published, end, rows);
      }
    }
  }

  lemma DistinctConsecutive(cal: seq<Date>, file: FieldFile, published: seq<Row>, end: Date, rows: seq<Row>)
    requires Ascending(cal) && Tracks(cal, file, published, end) && UpdateDates(rows, end) != []
    requires forall r :: r in After(rows, end) ==> r.date in cal
    requires DistinctDates(After(rows, end)) && TracksUpdated(cal, file, published, end, rows)
    ensures Consecutive(cal, file, UpdateDates(rows, end))
  {
    hide UpdateDates, Dates, Greatest, ValueAt, After, Values, Ascending, Consecutive, Tracks, DistinctDates;
    DistinctUpdates(cal, rows, end);
    LastOfDistinct(rows, end);
    var file' := FieldFile(file.header, file.cells + Values(rows, UpdateDates(rows, end)));
    TrackedEnds(cal, file, file', published, published + After(rows, end), end, Greatest(Dates(rows)));
    UpdateDatesAfter(rows, end, 0);
    Pinned(cal, file, UpdateDates(rows, end));
  }

  // ----- rows without missing values

  ghost predicate Sorted(dates: seq<Date>) {
    forall i, j :: 0 <= i < j < |dates| ==> dates[i] <= dates[j]
  }

  lemma {:induction false} InsertSorted(d: Date, dates: seq<Date>)
    requires Sorted(dates)
    ensures Sorted(Insert(d, dates))
  {
    if dates != [] && d > dates[0] {
      assert forall i :: 0 <= i < |dates[1..]| ==> dates[1..][i] == dates[i + 1];
      InsertSorted(d, dates[1..]);
      var rest := Insert(d, dates[1..]);
      forall i | 0 <= i < |rest|
        ensures dates[0] <= rest[i]
      {
        assert rest[i] in rest;
      }
    }
  }

  lemma {:induction false} SortSorted(dates: seq<Date>)
    ensures Sorted(Sort(dates))
  {
    if dates != [] {
      SortSorted(dates[1..]);
      InsertSorted(dates[0], Sort(dates[1..]));
    }
  }

  /** As many ascending entries as sorted dates, all among those dates, are those dates. */
  lemma {:induction false} NotBelow(entries: seq<Date>, dates: seq<Date>, k: nat)
    requires Ascending(entries) && Sorted(dates) && |entries| == |dates| && k < |dates|
    requires forall i :: 0 <= i < |entries| ==> entries[i] in dates
    ensures dates[k] <= entries[k]
  {
    var i :| 0 <= i < |dates| && dates[i] == entries[k];
    if k > 0 {
      NotBelow(entries, dates, k - 1);
      assert entries[k - 1] < entries[k];
    }
  }

  lemma {:induction false} NotOver(entries: seq<Date>, dates: seq<Date>, k: nat)
    requires Ascending(entries) && Sorted(dates) && |entries| == |dates| && k < |dates|
    requires forall i :: 0 <= i < |entries| ==> entries[i] in dates
    ensures entries[k] <= dates[k]
    decreases |dates| - k
  {
    var i :| 0 <= i < |dates| && dates[i] == entries[k];
    if k + 1 < |dates| {
      NotOver(entries, dates, k + 1);
      assert entries[k] < entries[k + 1];
    }
  }

  lemma {:induction false} ValuePresent(rows: seq<Row>, r: Row)
    requires r in rows && forall x :: x in rows && x.date == r.date ==> x.value.Some?
    ensures ValueAt(rows, r.date).Some?
  {
    if rows[0].date == r.date {
      assert rows[0] in rows;
    } else {
      assert forall x :: x in rows[1..] ==> x in rows;
      ValuePresent(rows[1..], r);
    }
  }

  /** The cells an update appends, if the file is aligned after it. */
  lemma AppendedCell(cal: seq<Date>, file: FieldFile, published: seq<Row>, end: Date, rows: seq<Row>, k: nat)
    requires TracksUpdated(cal, file, published, end, rows) && k < |UpdateDates(rows, end)|
    ensures file.header + |file.cells| + |UpdateDates(rows, end)| <= |cal|
    ensures ValueAt(rows, UpdateDates(rows, end)[k]) == ValueAt(published + After(rows, end), cal[file.header + |file.cells| + k])
  {
    hide UpdateDates, Dates, Greatest, ValueAt, After;
    var dates := UpdateDates(rows, end);
    assert (file.cells + Values(rows, dates))[|file.cells| + k] == ValueAt(rows, dates[k]);
  }

  lemma UpdatePresent(rows: seq<Row>, end: Date, k: nat)
    requires k < |UpdateDates(rows, end)| && Complete(After(rows, end))
    ensures ValueAt(rows, UpdateDates(rows, end)[k]).Some?
  {
    UpdateDatesAfter(rows, end, k);
    DatesMembers(rows);
    var d := UpdateDates(rows, end)[k];
    hide UpdateDates, ValueAt;
    var r :| r in rows && r.date == d;
    ValuePresent(rows, r);
  }

  /** Every entry that a complete update fills, the file being aligned after it, is one of the update dates. */
  lemma CompleteEntry(cal: seq<Date>, file: FieldFile, published: seq<Row>, end: Date, rows: seq<Row>, k: nat)
    requires Ascending(cal) && Tracks(cal, file, published, end) && k < |UpdateDates(rows, end)|
    requires Complete(After(rows, end)) && TracksUpdated(cal, file, published, end, rows)
    ensures file.header + |file.cells| + |UpdateDates(rows, end)| <= |cal|
    ensures cal[file.header + |file.cells| + k] in UpdateDates(rows, end)
  {
    hide UpdateDates, ValueAt, Ascending, Complete, TracksUpdated;
    AppendedCell(cal, file, published, end, rows, k);
    UpdatePresent(rows, end, k);
    var next := file.header + |file.cells|;
    AscendingOrder(cal, next + k, next - 1);
    EntryAdded(published, After(rows, end), end, cal[next + k]);
    UpdateDatesMembers(rows, end, cal[next + k]);
  }

  lemma EntryAdded(published: seq<Row>, added: seq<Row>, end: Date, d: Date)
    requires d > end && (forall r :: r in published ==> r.date <= end) && ValueAt(published + added, d).Some?
    ensures exists r :: r in added && r.date == d
  {
    if forall r :: r in added ==> r.date != d {
      ValueAtMissing(published + added, d);
    }
  }

  lemma UpdateDatesMembers(rows: seq<Row>, end: Date, d: Date)
    requires exists r :: r in After(rows, end) && r.date == d
    ensures d in UpdateDates(rows, end)
  {
    DatesMembers(After(rows, end));
  }

  lemma UpdateSorted(rows: seq<Row>, end: Date)
    ensures Sorted(UpdateDates(rows, end))
  {
    hide Sorted;
    SortSorted(Dates(After(rows, end)));
  }

  lemma SameEntries(entries: seq<Date>, dates: seq<Date>)
    requires Ascending(entries) && Sorted(dates) && |entries| == |dates|
    requires forall k :: 0 <= k < |entries| ==> entries[k] in dates
    ensures dates == entries
  {
    hide Ascending, Sorted;
    forall k | 0 <= k < |dates|
      ensures entries[k] == dates[k]
    {
      NotBelow(entries, dates, k);
      NotOver(entries, dates, k);
    }
  }

  lemma SliceAscending(cal: seq<Date>, i: nat, j: nat)
    requires Ascending(cal) && i <= j <= |cal|
    ensures Ascending(cal[i..j])
  {
  }

  lemma CompleteConsecutive(cal: seq<Date>, file: FieldFile, published: seq<Row>, end: Date, rows: seq<Row>)
    requires Ascending(cal) && Tracks(cal, file, published, end) && UpdateDates(rows, end) != []
    requires Complete(After(rows, end)) && TracksUpdated(cal, file, published, end, rows)
    ensures Consecutive(cal, file, UpdateDates(rows, end))
  {
    hide UpdateDates, Tracks, TracksUpdated, Sorted, Complete, Ascending;
    var dates, next := UpdateDates(rows, end), file.header + |file.cells|;
    UpdateSorted(rows, end);
    CompleteEntry(cal, file, published, end, rows, 0);
    var entries := cal[next..next + |dates|];
    forall k | 0 <= k < |entries|
      ensures entries[k] in dates
    {
      CompleteEntry(cal, file, published, end, rows, k);
    }
    SliceAscending(cal, next, next + |dates|);
    SameEntries(entries, dates);
  }

  lemma TrackedEnds(cal: seq<Date>, file: FieldFile, file': FieldFile, published: seq<Row>, published': seq<Row>, end: Date, end': Date)
    requires Tracks(cal, file, published, end) && Tracks(cal, file', published', end') && file.header == file'.header
    ensures 0 < file.header + |file.cells| <= |cal| && cal[file.header + |file.cells| - 1] == end
    ensures 0 < file.header + |file'.cells| <= |cal| && cal[file.header + |file'.cells| - 1] == end'
  {
    hide ValueAt;
  }

  /** Ascending calendar dates after the last cell, as many as there are entries up to the last of them, are those entries. */
  lemma Pinned(cal: seq<Date>, file: FieldFile, dates: seq<Date>)
    requires Ascending(cal) && Ascending(dates) && dates != [] && forall d :: d in dates ==> d in cal
    requires var next := file.header + |file.cells|;
             && 0 < next && next + |dates| <= |cal| && cal[next - 1] < dates[0]
             && dates[|dates| - 1] == cal[next + |dates| - 1]
    ensures Consecutive(cal, file, dates)
  {
    hide Ascending;
    var next := file.header + |file.cells|;
    forall k | 0 <= k < |dates|
      ensures dates[k] == cal[next + k]
    {
      NotBefore(cal, dates, next, k);
      NotAfter(cal, dates, next, k);
    }
  }

  /** A symbol that skips one calendar day: its next value lands in the skipped day's cell. */
  lemma SkippedDayShifts(a: Cell, b: Cell)
    ensures UpdateDates([Row(3, b)], 1) == [3]
    ensures !Consecutive([1, 2, 3], FieldFile(0, [a]), [3])
    ensures DataToBin(Some(FieldFile(0, [a])), true, [Row(3, b)], [3]) == Some(FieldFile(0, [a, b]))
  {
    var rows := [Row(3, b)];
    assert rows[1..] == [] && After(rows, 1) == [Row(3, b)] + After([], 1) == rows;
    assert Dates(rows) == [3];
    assert [3][1..] == [] && Sort([3]) == Insert(3, Sort([])) == [3];
    UpdateAppends(FieldFile(0, [a]), rows, 1);
    assert ValueAt(rows, 3) == b;
    assert [a] + Values(rows, [3]) == [a, b];
    assert [1, 2, 3][1..2] == [2];
  }

  // ----- the whole directory

  datatype Source = Source(code: string, rows: seq<Row>)

  /** Some row of some source has the date. */
  ghost predicate HasDate(sources: seq<Source>, d: Date) {
    exists i, r :: 0 <= i < |sources| && r in sources[i].rows && r.date == d
  }

  function AllDates(sources: seq<Source>): (dates: seq<Date>)
    ensures forall d :: d in dates <==> HasDate(sources, d)
  {
    if sources == [] then []
    else
      var front, last := sources[..|sources| - 1], sources[|sources| - 1];
      HasDateStep(sources);
      DatesMembers(last.rows);
      AllDates(front) + Dates(last.rows)
  }

  lemma HasDateStep(sources: seq<Source>)
    requires sources != []
    ensures var front, last := sources[..|sources| - 1], sources[|sources| - 1];
            forall d :: HasDate(sources, d) <==> HasDate(front, d) || exists r :: r in last.rows && r.date == d
  {
    var front, last := sources[..|sources| - 1], sources[|sources| - 1];
    forall d: Date
      ensures HasDate(sources, d) <==> HasDate(front, d) || exists r :: r in last.rows && r.date == d
    {
      if HasDate(sources, d) {
        var i, r :| 0 <= i < |sources| && r in sources[i].rows && r.date == d;
        assert i < |front| ==> r in front[i].rows;
      }
      if HasDate(front, d) {
        var i, r :| 0 <= i < |front| && r in front[i].rows && r.date == d;
        assert r in sources[i].rows;
      }
      if r :| r in last.rows && r.date == d {
        assert r in sources[|front|].rows;
      }
    }
  }

  ghost predicate DistinctCodes(sources: seq<Source>) {
    forall i, j :: 0 <= i < j < |sources| ==> sources[i].code != sources[j].code
  }

  function NewCalendar(cal: seq<Date>, sources: seq<Source>): seq<Date>
    requires cal != []
  {
    cal + SortUnique(FilterAfter(AllDates(sources), cal[|cal| - 1]))
  }

  function FilterAfter(dates: seq<Date>, end: Date): (r: seq<Date>)
    ensures forall d :: d in r <==> d in dates && d > end
  {
    if dates == [] then []
    else
      assert forall d :: d in dates <==> d == dates[0] || d in dates[1..];
      if dates[0] > end then [dates[0]] + FilterAfter(dates[1..], end) else FilterAfter(dates[1..], end)
  }

  lemma NewCalendarAppends(cal: seq<Date>, sources: seq<Source>)
    requires cal != []
    ensures cal <= NewCalendar(cal, sources)
    ensures Ascending(cal) ==> Ascending(NewCalendar(cal, sources))
  {
    if Ascending(cal) {
      NewCalendarAscending(cal, sources);
    }
  }

  lemma NewCalendarAscending(cal: seq<Date>, sources: seq<Source>)
    requires cal != [] && Ascending(cal)
    ensures cal <= NewCalendar(cal, sources) && Ascending(NewCalendar(cal, sources))
  {
    var more := SortUnique(FilterAfter(AllDates(sources), cal[|cal| - 1]));
    SortUniqueAscending(FilterAfter(AllDates(sources), cal[|cal| - 1]));
    forall i | 0 <= i < |more|
      ensures more[i] > cal[|cal| - 1]
    {
      assert more[i] in more;
    }
  }

  /** The new calendar has the old entries, and of the row dates those after the last entry. */
  lemma NewCalendarDates(cal: seq<Date>, sources: seq<Source>)
    requires cal != []
    ensures forall d :: d in NewCalendar(cal, sources) <==> d in cal || (HasDate(sources, d) && d > cal[|cal| - 1])
  {
    hide HasDate, SortUnique, FilterAfter, AllDates;
  }

  // ----- one symbol's turn

  /** What is kept of a listed symbol: its recorded end, and its file if there is one. */
  datatype Symbol = Symbol(end: Date, file: Option<FieldFile>)

  /** A listed symbol appends its dates after the recorded end; an unlisted one is listed and gets a file. */
  function NextSymbol(cal: seq<Date>, symbol: Option<Symbol>, rows: seq<Row>): Option<Symbol> {
    if rows == [] then symbol
    else match symbol
      case None => Some(Symbol(Greatest(Dates(rows)), DataToBin(None, true, rows, cal)))
      case Some(s) =>
        var dates := UpdateDates(rows, s.end);
        if dates == [] then symbol else Some(Symbol(Greatest(Dates(rows)), DataToBin(s.file, true, rows, dates)))
  }

  ghost predicate Aligned(cal: seq<Date>, symbol: Option<Symbol>, published: seq<Row>) {
    symbol.Some? && symbol.value.file.Some? && Tracks(cal, symbol.value.file.value, published, symbol.value.end)
  }

  /** What an update asks of a symbol's rows for its file to be aligned. */
  ghost predicate Fits(cal: seq<Date>, symbol: Option<Symbol>, rows: seq<Row>) {
    if symbol == None then forall r :: r in rows ==> r.date in cal
    else
      var dates := UpdateDates(rows, symbol.value.end);
      dates == [] || (symbol.value.file.Some? && Consecutive(cal, symbol.value.file.value, dates))
  }

  /** What has been published for a symbol once an update brings `rows`. */
  ghost function NowPublished(symbol: Option<Symbol>, published: seq<Row>, rows: seq<Row>): seq<Row> {
    if symbol == None then rows else published + After(rows, symbol.value.end)
  }

  /** A file is only ever added to at its end. */
  ghost predicate Grown(before: Option<Symbol>, after: Option<Symbol>) {
    before.Some? && before.value.file.Some? ==>
      && after.Some? && after.value.file.Some?
      && before.value.file.value.header == after.value.file.value.header
      && before.value.file.value.cells <= after.value.file.value.cells
  }

  lemma NothingToUpdate(symbol: Symbol, published: seq<Row>, rows: seq<Row>)
    requires rows == [] || UpdateDates(rows, symbol.end) == []
    ensures UpdateDates(rows, symbol.end) == [] && NowPublished(Some(symbol), published, rows) == published
  {
    assert rows == [] ==> After(rows, symbol.end) == [] && Dates([]) == [];
    NothingAfter(rows, symbol.end);
    assert published + [] == published;
  }

  /** Headers and old cells stay, whatever an update brings. */
  lemma SymbolGrows(cal: seq<Date>, symbol: Option<Symbol>, rows: seq<Row>)
    ensures Grown(symbol, NextSymbol(cal, symbol, rows))
  {
    hide UpdateDates, DataToBin, Dates, Greatest, Values;
    if symbol.Some? && symbol.value.file.Some? && rows != [] && UpdateDates(rows, symbol.value.end) != [] {
      UpdateAppends(symbol.value.file.value, rows, symbol.value.end);
    }
  }

  /** A listed symbol stays aligned, and a new one becomes so from its first date on, when its rows fit. */
  lemma SymbolStaysAligned(cal: seq<Date>, symbol: Option<Symbol>, published: seq<Row>, rows: seq<Row>)
    requires Ascending(cal) && Fits(cal, symbol, rows)
    requires if symbol.Some? then Aligned(cal, symbol, published) else rows != []
    ensures Aligned(cal, NextSymbol(cal, symbol, rows), NowPublished(symbol, published, rows))
    ensures symbol == None ==>
              var file := NextSymbol(cal, symbol, rows).value.file.value;
              file.header < |cal| && cal[file.header] == Least(Dates(rows))
  {
    hide UpdateDates, DataToBin, Dates, Least, Greatest, Values, Tracks, Ascending, Consecutive, After, NowPublished;
    if symbol == None {
      CreatedFileTracks(cal, rows, true);
      NewlyPublished(published, rows);
      HeaderInCalendar(cal, DataToBin(None, true, rows, cal).value, rows, Greatest(Dates(rows)));
    } else if rows == [] || UpdateDates(rows, symbol.value.end) == [] {
      NothingToUpdate(symbol.value, published, rows);
    } else {
      ListedNext(cal, symbol.value, published, rows);
      AlignedUpdate(cal, symbol.value.file.value, published, symbol.value.end, rows);
    }
  }

  lemma NewlyPublished(published: seq<Row>, rows: seq<Row>)
    ensures NowPublished(None, published, rows) == rows
  {
  }

  /** A listed symbol with dates to add. */
  lemma ListedNext(cal: seq<Date>, symbol: Symbol, published: seq<Row>, rows: seq<Row>)
    requires rows != [] && UpdateDates(rows, symbol.end) != [] && symbol.file.Some?
    ensures Aligned(cal, NextSymbol(cal, Some(symbol), rows), NowPublished(Some(symbol), published, rows)) <==>
            TracksUpdated(cal, symbol.file.value, published, symbol.end, rows)
  {
    hide UpdateDates, DataToBin, Dates, Greatest, Values, Tracks;
    UpdateAppends(symbol.file.value, rows, symbol.end);
  }

  lemma AlignedUpdate(cal: seq<Date>, file: FieldFile, published: seq<Row>, end: Date, rows: seq<Row>)
    requires Ascending(cal) && Tracks(cal, file, published, end)
    requires UpdateDates(rows, end) != [] && Consecutive(cal, file, UpdateDates(rows, end))
    ensures TracksUpdated(cal, file, published, end, rows)
  {
    hide UpdateDates, Dates, Greatest, Values, Tracks, Ascending, Consecutive;
    UpdatedFileTracks(cal, file, published, end, rows);
  }

  /** A listed symbol whose new rows are telling stays aligned exactly when they fit. */
  lemma SymbolAlignedIff(cal: seq<Date>, symbol: Symbol, published: seq<Row>, rows: seq<Row>)
    requires Ascending(cal) && Aligned(cal, Some(symbol), published) && Telling(cal, After(rows, symbol.end))
    ensures Aligned(cal, NextSymbol(cal, Some(symbol), rows), NowPublished(Some(symbol), published, rows)) <==>
            Fits(cal, Some(symbol), rows)
  {
    hide UpdateDates, DataToBin, Dates, Greatest, Values, Tracks, Ascending, Consecutive, NowPublished, TracksUpdated, Telling;
    if rows == [] || UpdateDates(rows, symbol.end) == [] {
      NothingToUpdate(symbol, published, rows);
    } else {
      ListedNext(cal, symbol, published, rows);
      AlignedIffConsecutive(cal, symbol.file.value, published, symbol.end, rows);
    }
  }

  lemma NothingAfter(rows: seq<Row>, end: Date)
    requires UpdateDates(rows, end) == []
    ensures After(rows, end) == []
  {
    assert |UpdateDates(rows, end)| == |After(rows, end)|;
  }

  lemma HeaderInCalendar(cal: seq<Date>, file: FieldFile, published: seq<Row>, end: Date)
    requires Tracks(cal, file, published, end)
    ensures file.header < |cal|
  {
  }

  // ----- a turn, told from the rows and the calendar

  lemma {:induction false} ValueAtFirst(rows: seq<Row>, i: nat)
    requires i < |rows| && forall j :: 0 <= j < i ==> rows[j].date != rows[i].date
    ensures ValueAt(rows, rows[i].date) == rows[i].value
  {
    if i > 0 {
      assert rows[0].date != rows[i].date && rows[1..][i - 1] == rows[i];
      assert forall j :: 0 <= j < i - 1 ==> rows[1..][j] == rows[j + 1];
      ValueAtFirst(rows[1..], i - 1);
    }
  }

  lemma AfterUnfold(rows: seq<Row>, end: Date)
    ensures After(rows, end) ==
            if rows == [] then [] else (if rows[0].date > end then [rows[0]] else []) + After(rows[1..], end)
  {
  }

  lemma Regroup(a: seq<Row>, b: seq<Row>, c: seq<Row>)
    ensures a + (b + c) == (a + b) + c && [] + c == c
  {
  }

  /** Later rows are kept one by one, in their order. */
  lemma {:induction false} AfterAppend(a: seq<Row>, b: seq<Row>, end: Date)
    ensures After(a + b, end) == After(a, end) + After(b, end)
  {
    hide After;
    AfterUnfold(a, end);
    AfterUnfold(a + b, end);
    if a == [] {
      assert a + b == b;
      Regroup([], [], After(b, end));
    } else {
      AfterAppend(a[1..], b, end);
      assert (a + b)[1..] == a[1..] + b;
      Regroup(if a[0].date > end then [a[0]] else [], After(a[1..], end), After(b, end));
    }
  }

  lemma AfterOne(r: Row, end: Date)
    ensures After([r], end) == if r.date > end then [r] else []
  {
    assert [r][1..] == [];
  }

  lemma {:induction false} InsertKeeps(d: Date, dates: seq<Date>)
    ensures multiset(Insert(d, dates)) == multiset(dates) + multiset{d}
  {
    if dates != [] && d > dates[0] {
      InsertKeeps(d, dates[1..]);
      assert dates == [dates[0]] + dates[1..];
    }
  }

  lemma {:induction false} SortKeeps(dates: seq<Date>)
    ensures multiset(Sort(dates)) == multiset(dates)
  {
    if dates != [] {
      SortKeeps(dates[1..]);
      InsertKeeps(dates[0], Sort(dates[1..]));
      assert dates == [dates[0]] + dates[1..];
    }
  }

  /** The entries of an ascending calendar that lie in a range are a slice of it. */
  lemma {:induction false} ClipBounds(cal: seq<Date>, lo: Date, hi: Date) returns (i: nat, j: nat)
    requires Ascending(cal) && lo <= hi
    ensures i <= j <= |cal| && Clip(cal, lo, hi) == cal[i..j]
    ensures forall k :: 0 <= k < |cal| ==> (lo <= cal[k] <= hi <==> i <= k < j)
  {
    hide Ascending;
    if cal == [] {
      return 0, 0;
    }
    AscendingTail(cal);
    var tail := cal[1..];
    assert forall k :: 0 < k < |cal| ==> cal[k] == tail[k - 1];
    i, j := ClipBounds(tail, lo, hi);
    assert forall k :: 0 < k < |cal| ==> (lo <= cal[k] <= hi <==> i + 1 <= k < j + 1);
    if lo <= cal[0] <= hi {
      if i < j {
        assert lo <= tail[0] <= hi by {
          assert tail[0] <= tail[i];
        }
      } else {
        i, j := 0, 0;
      }
      assert [cal[0]] + tail[0..j] == cal[0..j + 1];
      j := j + 1;
    } else {
      assert tail[i..j] == cal[i + 1..j + 1];
      i, j := i + 1, j + 1;
    }
  }

  /** A date between the first and the last row date. */
  ghost predicate Spanned(rows: seq<Row>, d: Date) {
    (exists r :: r in rows && r.date <= d) && (exists r :: r in rows && d <= r.date)
  }

  ghost predicate IsLast(rows: seq<Row>, d: Date) {
    (exists r :: r in rows && r.date == d) && (forall r :: r in rows ==> r.date <= d)
  }

  /** A file holds a cell for every spanned calendar entry and no other; there is none when no entry is spanned. */
  ghost predicate Covers(cal: seq<Date>, file: Option<FieldFile>, rows: seq<Row>) {
    if file == None then forall k :: 0 <= k < |cal| ==> !Spanned(rows, cal[k])
    else
      var FieldFile(header, cells) := file.value;
      && cells != [] && header + |cells| <= |cal|
      && (forall k :: 0 <= k < |cal| ==> (Spanned(rows, cal[k]) <==> header <= k < header + |cells|))
      && (forall k :: 0 <= k < |cells| ==> cells[k] == ValueAt(rows, cal[header + k]))
  }

  /** A file that is written on gets one cell per row dated after `end`, in the order of the dates. */
  ghost predicate Appended(before: Option<FieldFile>, after: FieldFile, end: Date, rows: seq<Row>) {
    var old_ := if before.Some? then before.value else FieldFile(0, []);
    && after.header == old_.header
    && exists dates :: Sorted(dates) && multiset(dates) == multiset(Dates(After(rows, end)))
         && after.cells == old_.cells + Values(rows, dates)
  }

  /** What a symbol's turn comes to. */
  ghost predicate Turned(cal: seq<Date>, before: Option<Symbol>, after: Option<Symbol>, rows: seq<Row>) {
    if rows == [] || (before.Some? && forall r :: r in rows ==> r.date <= before.value.end) then after == before
    else
      && after.Some? && IsLast(rows, after.value.end)
      && if before == None then Ascending(cal) ==> Covers(cal, after.value.file, rows)
         else after.value.file.Some? && Appended(before.value.file, after.value.file.value, before.value.end, rows)
  }

  lemma SpannedBounds(rows: seq<Row>, d: Date)
    requires rows != []
    ensures Spanned(rows, d) <==> Least(Dates(rows)) <= d <= Greatest(Dates(rows))
    ensures IsLast(rows, Greatest(Dates(rows))) && Least(Dates(rows)) <= Greatest(Dates(rows))
  {
    hide Least, Greatest;
    DatesMembers(rows);
    RowsUpTo(rows);
  }

  lemma NewFileCovers(cal: seq<Date>, rows: seq<Row>)
    requires Ascending(cal) && rows != []
    ensures Covers(cal, DataToBin(None, true, rows, cal), rows)
  {
    hide Least, Greatest, Spanned, Ascending, Dates, Clip, Values;
    var lo, hi := Least(Dates(rows)), Greatest(Dates(rows));
    SpannedBounds(rows, lo);
    forall k | 0 <= k < |cal|
      ensures Spanned(rows, cal[k]) <==> lo <= cal[k] <= hi
    {
      SpannedBounds(rows, cal[k]);
    }
    var i, j := ClipBounds(cal, lo, hi);
    if i < j {
      SliceAscending(cal, i, j);
      LeastOfAscending(cal[i..j]);
      IndexInAscending(cal, i);
    }
  }

  /** Where no rows came before, an update writes its dates from position 0 of themselves. */
  lemma UpdateCreates(rows: seq<Row>, end: Date)
    requires UpdateDates(rows, end) != []
    ensures DataToBin(None, true, rows, UpdateDates(rows, end)) == Some(FieldFile(0, Values(rows, UpdateDates(rows, end))))
  {
    var dates := UpdateDates(rows, end);
    DatesMembers(rows);
    DatesMembers(After(rows, end));
    UpdateSorted(rows, end);
    assert dates[0] in dates && rows != [];
    forall d | d in dates
      ensures Least(Dates(rows)) <= d <= Greatest(Dates(rows))
    {
      assert d in Dates(rows);
    }
    ClipEverything(dates, Least(Dates(rows)), Greatest(Dates(rows)));
    assert Least(dates) == dates[0];
  }

  lemma NothingLater(rows: seq<Row>, end: Date)
    ensures UpdateDates(rows, end) == [] <==> forall r :: r in rows ==> r.date <= end
  {
    assert |UpdateDates(rows, end)| == |After(rows, end)|;
    if r :| r in rows && r.date > end {
      assert r in After(rows, end);
    }
    if After(rows, end) != [] {
      assert After(rows, end)[0] in After(rows, end);
    }
  }

  lemma NextSymbolTurned(cal: seq<Date>, symbol: Option<Symbol>, rows: seq<Row>)
    ensures Turned(cal, symbol, NextSymbol(cal, symbol, rows), rows)
  {
    hide DataToBin, Dates, Least, Greatest, Values, Ascending, Covers, IsLast, Sorted, After, Sort;
    if rows != [] {
      SpannedBounds(rows, 0);
      if symbol == None {
        if Ascending(cal) {
          NewFileCovers(cal, rows);
        }
      } else {
        var end, dates := symbol.value.end, UpdateDates(rows, symbol.value.end);
        NothingLater(rows, end);
        UpdateSorted(rows, end);
        SortKeeps(Dates(After(rows, end)));
        if dates != [] {
          UpdateCreates(rows, end);
          if symbol.value.file.Some? {
            UpdateAppends(symbol.value.file.value, rows, end);
          }
          assert [] + Values(rows, dates) == Values(rows, dates);
        }
      }
    }
  }

  // ----- updates of the whole directory

  datatype Dir = Dir(calendar: seq<Date>, symbols: map<string, Symbol>)

  function Get(symbols: map<string, Symbol>, code: string): Option<Symbol> {
    if code in symbols then Some(symbols[code]) else None
  }

  /** The rows that come for a symbol; none when it has no source. */
  function RowsOf(sources: seq<Source>, code: string): seq<Row> {
    if sources == [] then []
    else if sources[|sources| - 1].code == code then sources[|sources| - 1].rows
    else RowsOf(sources[..|sources| - 1], code)
  }

  /** Every symbol takes its turn against the new calendar. */
  ghost predicate Updated(before: Dir, sources: seq<Source>, after: Dir) {
    && before.calendar != [] && after.calendar == NewCalendar(before.calendar, sources)
    && forall code :: Get(after.symbols, code) == NextSymbol(after.calendar, Get(before.symbols, code), RowsOf(sources, code))
  }

  ghost predicate IsRun(dirs: seq<Dir>, updates: seq<seq<Source>>) {
    |dirs| == |updates| + 1 && forall i :: 0 <= i < |updates| ==> Updated(dirs[i], updates[i], dirs[i + 1])
  }

  /** The rows published for a symbol over the first `n` updates, on top of those from before. */
  ghost function PublishedBy(dirs: seq<Dir>, updates: seq<seq<Source>>, code: string, published: seq<Row>, n: nat): seq<Row>
    requires |dirs| == |updates| + 1 && n <= |updates|
  {
    if n == 0 then published
    else NowPublished(Get(dirs[n - 1].symbols, code), PublishedBy(dirs, updates, code, published, n - 1), RowsOf(updates[n - 1], code))
  }

  /** Did the rows of every update fit a symbol when they came? */
  ghost predicate AllFit(dirs: seq<Dir>, updates: seq<seq<Source>>, code: string, n: nat)
    requires |dirs| == |updates| + 1 && n <= |updates|
  {
    forall i :: 0 <= i < n ==> Fits(dirs[i + 1].calendar, Get(dirs[i].symbols, code), RowsOf(updates[i], code))
  }

  /**
   Over any run of updates the calendar stays ascending and grows at its end, and headers and cells stay.  A symbol that is
   aligned once listed, and whose rows fit whenever some come, is aligned in the end, whatever happens to other symbols.
   */
  lemma {:induction false} RunStaysAligned(dirs: seq<Dir>, updates: seq<seq<Source>>, code: string, published: seq<Row>, n: nat)
    requires IsRun(dirs, updates) && n <= |updates| && Ascending(dirs[0].calendar)
    ensures Ascending(dirs[n].calendar) && dirs[0].calendar <= dirs[n].calendar
    ensures Grown(Get(dirs[0].symbols, code), Get(dirs[n].symbols, code))
    ensures var first, last := Get(dirs[0].symbols, code), Get(dirs[n].symbols, code);
            (first.Some? ==> Aligned(dirs[0].calendar, first, published)) && AllFit(dirs, updates, code, n) && last.Some? ==>
              Aligned(dirs[n].calendar, last, PublishedBy(dirs, updates, code, published, n))
  {
    hide Tracks, Ascending, NewCalendar, NextSymbol, Fits, NowPublished;
    if n > 0 {
      RunStaysAligned(dirs, updates, code, published, n - 1);
      assert Updated(dirs[n - 1], updates[n - 1], dirs[n]);
      NewCalendarAscending(dirs[n - 1].calendar, updates[n - 1]);
      var symbol, rows := Get(dirs[n - 1].symbols, code), RowsOf(updates[n - 1], code);
      SymbolGrows(dirs[n].calendar, symbol, rows);
      var before := PublishedBy(dirs, updates, code, published, n - 1);
      if AllFit(dirs, updates, code, n) && Get(dirs[n].symbols, code).Some? {
        assert AllFit(dirs, updates, code, n - 1);
        if symbol.Some? && Aligned(dirs[n - 1].calendar, symbol, before) {
          AlignedLater(dirs[n - 1].calendar, dirs[n].calendar, symbol, before);
          SymbolStaysAligned(dirs[n].calendar, symbol, before, rows);
        } else if symbol == None {
          UnlistedStays(dirs[n].calendar, rows);
          SymbolStaysAligned(dirs[n].calendar, symbol, before, rows);
        }
      }
    }
  }

  lemma UnlistedStays(cal: seq<Date>, rows: seq<Row>)
    requires NextSymbol(cal, None, rows).Some?
    ensures rows != []
  {
  }

  lemma AlignedLater(cal: seq<Date>, cal': seq<Date>, symbol: Option<Symbol>, published: seq<Row>)
    requires Aligned(cal, symbol, published) && cal <= cal'
    ensures Aligned(cal', symbol, published)
  {
    hide Tracks;
    assert cal' == cal + cal'[|cal|..];
    TracksExtendedCalendar(cal, cal'[|cal|..], symbol.value.file.value, published, symbol.value.end);
  }

  lemma RowsOfStep(sources: seq<Source>, n: nat, code: string)
    requires n < |sources|
    ensures RowsOf(sources[..n + 1], code) == if sources[n].code == code then sources[n].rows else RowsOf(sources[..n], code)
  {
    assert sources[..n + 1][..n] == sources[..n];
  }

  lemma {:induction false} NoRowsYet(sources: seq<Source>, n: nat, code: string)
    requires n <= |sources| && forall i :: 0 <= i < n ==> sources[i].code != code
    ensures RowsOf(sources[..n], code) == []
  {
    if n > 0 {
      RowsOfStep(sources, n - 1, code);
      NoRowsYet(sources, n - 1, code);
    }
  }

  lemma {:induction false} RowsOfMember(sources: seq<Source>, i: nat, n: nat)
    requires DistinctCodes(sources) && i < n <= |sources|
    ensures RowsOf(sources[..n], sources[i].code) == sources[i].rows
  {
    RowsOfStep(sources, n - 1, sources[i].code);
    if i < n - 1 {
      RowsOfMember(sources, i, n - 1);
    }
  }

  /** The symbols after the first `n` sources have had their turn. */
  ghost predicate Applied(cal: seq<Date>, before: map<string, Symbol>, sources: seq<Source>, n: nat, after: map<string, Symbol>)
    requires n <= |sources|
  {
    forall code :: Get(after, code) == NextSymbol(cal, Get(before, code), RowsOf(sources[..n], code))
  }

  lemma AppliedStart(cal: seq<Date>, before: map<string, Symbol>, sources: seq<Source>)
    ensures Applied(cal, before, sources, 0, before)
  {
  }

  lemma AppliedStep(cal: seq<Date>, before: map<string, Symbol>, sources: seq<Source>, n: nat,
                    now: map<string, Symbol>, after: map<string, Symbol>)
    requires DistinctCodes(sources) && n < |sources| && Applied(cal, before, sources, n, now)
    requires forall code :: code != sources[n].code ==> Get(after, code) == Get(now, code)
    requires Get(after, sources[n].code) == NextSymbol(cal, Get(now, sources[n].code), sources[n].rows)
    ensures Applied(cal, before, sources, n + 1, after)
  {
    NoRowsYet(sources, n, sources[n].code);
    NoRowsNext(cal, Get(before, sources[n].code));
    hide NextSymbol;
    assert Get(now, sources[n].code) == NextSymbol(cal, Get(before, sources[n].code), RowsOf(sources[..n], sources[n].code));
    forall code
      ensures Get(after, code) == NextSymbol(cal, Get(before, code), RowsOf(sources[..n + 1], code))
    {
      RowsOfStep(sources, n, code);
    }
  }

  lemma NoRowsNext(cal: seq<Date>, symbol: Option<Symbol>)
    ensures NextSymbol(cal, symbol, []) == symbol
  {
  }

  class FeatureDir {
    var calendar: seq<Date>
    var symbols: map<string, Symbol>

    ghost function State(): Dir
      reads this
    {
      Dir(calendar, symbols)
    }

    /**
     A full dump: the calendar is every date of every symbol, and every symbol with rows is listed with an aligned file that
     starts at its first date.
     */
    constructor DumpAll(sources: seq<Source>)
      requires DistinctCodes(sources)
      ensures Ascending(calendar) && forall d :: d in calendar <==> HasDate(sources, d)
      ensures forall code :: Get(symbols, code) == NextSymbol(calendar, None, RowsOf(sources, code))
      ensures forall i :: 0 <= i < |sources| ==> Turned(calendar, None, Get(symbols, sources[i].code), sources[i].rows)
      ensures forall code :: code in symbols ==> exists i :: 0 <= i < |sources| && sources[i].code == code
      ensures forall i :: 0 <= i < |sources| && sources[i].rows != [] ==> Created(calendar, symbols, sources[i])
    {
      calendar := SortUnique(AllDates(sources));
      symbols := map[];
      new;
      SortUniqueAscending(AllDates(sources));
      hide SortUnique, Dates, Greatest, DataToBin, Applied, Created, AllDates, HasDate, Turned;
      AppliedStart(calendar, map[], sources);
      for i := 0 to |sources|
        invariant calendar == SortUnique(AllDates(sources)) && Applied(calendar, map[], sources, i, symbols)
        invariant forall code :: code in symbols ==> exists j :: 0 <= j < i && sources[j].code == code
      {
        ghost var now := symbols;
        var Source(code, rows) := sources[i];
        if rows != [] {
          symbols := symbols[code := Symbol(Greatest(Dates(rows)), DataToBin(None, false, rows, calendar))];
          NewFile(rows, calendar);
        }
        AppliedStep(calendar, map[], sources, i, now, symbols);
      }
      AllCreated(calendar, symbols, sources);
      AllTurned(calendar, map[], sources, symbols);
    }

    /** One group of rows: its symbol takes its turn, the others stay. */
    method ApplySource(source: Source)
      modifies `symbols
      ensures Get(symbols, source.code) == NextSymbol(calendar, Get(old(symbols), source.code), source.rows)
      ensures forall code :: code != source.code ==> Get(symbols, code) == Get(old(symbols), code)
      ensures Turned(calendar, Get(old(symbols), source.code), Get(symbols, source.code), source.rows)
    {
      NextSymbolTurned(calendar, Get(symbols, source.code), source.rows);
      hide Turned, UpdateDates, Dates, Greatest, DataToBin;
      var Source(code, rows) := source;
      if rows == [] {
        return;
      }
      if code in symbols {
        var dates := UpdateDates(rows, symbols[code].end);
        if dates != [] {
          symbols := symbols[code := Symbol(Greatest(Dates(rows)), DataToBin(symbols[code].file, true, rows, dates))];
        }
      } else {
        symbols := symbols[code := Symbol(Greatest(Dates(rows)), DataToBin(None, true, rows, calendar))];
      }
    }

    /** An update with one group of rows per symbol; it fails, changing nothing, when there is no calendar yet. */
    method Update(sources: seq<Source>) returns (ok: bool)
      requires DistinctCodes(sources)
      modifies this
      ensures ok <==> old(calendar) != []
      ensures ok ==> Updated(old(State()), sources, State())
      ensures ok ==> forall i :: 0 <= i < |sources| ==>
                       Turned(calendar, Get(old(symbols), sources[i].code), Get(symbols, sources[i].code), sources[i].rows)
      ensures ok ==> forall code :: (forall i :: 0 <= i < |sources| ==> sources[i].code != code) ==>
                       Get(symbols, code) == Get(old(symbols), code)
      ensures ok ==> old(calendar) <= calendar && (Ascending(old(calendar)) ==> Ascending(calendar))
      ensures ok ==> forall d :: d in calendar <==>
                       d in old(calendar) || (HasDate(sources, d) && d > old(calendar)[|old(calendar)| - 1])
      ensures !ok ==> State() == old(State())
    {
      hide NextSymbol, NewCalendar, Applied, HasDate, Ascending, Turned;
      if calendar == [] {
        return false;
      }
      NewCalendarDates(calendar, sources);
      NewCalendarAppends(calendar, sources);
      calendar := NewCalendar(calendar, sources);
      AppliedStart(calendar, symbols, sources);
      for i := 0 to |sources|
        invariant calendar == NewCalendar(old(calendar), sources) && Applied(calendar, old(symbols), sources, i, symbols)
      {
        ghost var now := symbols;
        ApplySource(sources[i]);
        AppliedStep(calendar, old(symbols), sources, i, now, symbols);
      }
      AppliedEnd(calendar, old(symbols), sources, symbols);
      AllTurned(calendar, old(symbols), sources, symbols);
      ok := true;
    }
  }

  lemma AppliedEnd(cal: seq<Date>, before: map<string, Symbol>, sources: seq<Source>, after: map<string, Symbol>)
    requires Applied(cal, before, sources, |sources|, after)
    ensures forall code :: Get(after, code) == NextSymbol(cal, Get(before, code), RowsOf(sources, code))
  {
    hide NextSymbol;
    assert sources[..|sources|] == sources;
  }

  lemma AllTurned(cal: seq<Date>, before: map<string, Symbol>, sources: seq<Source>, after: map<string, Symbol>)
    requires DistinctCodes(sources) && Applied(cal, before, sources, |sources|, after)
    ensures forall i :: 0 <= i < |sources| ==>
              Turned(cal, Get(before, sources[i].code), Get(after, sources[i].code), sources[i].rows)
    ensures forall code :: (forall i :: 0 <= i < |sources| ==> sources[i].code != code) ==> Get(after, code) == Get(before, code)
  {
    hide NextSymbol, Turned;
    AppliedEnd(cal, before, sources, after);
    assert sources[..|sources|] == sources;
    forall i | 0 <= i < |sources|
      ensures Turned(cal, Get(before, sources[i].code), Get(after, sources[i].code), sources[i].rows)
    {
      RowsOfMember(sources, i, |sources|);
      NextSymbolTurned(cal, Get(before, sources[i].code), sources[i].rows);
    }
    forall code | forall i :: 0 <= i < |sources| ==> sources[i].code != code
      ensures Get(after, code) == Get(before, code)
    {
      NoRowsYet(sources, |sources|, code);
      NoRowsNext(cal, Get(before, code));
    }
  }

  lemma NewFile(rows: seq<Row>, cal: seq<Date>)
    ensures DataToBin(None, false, rows, cal) == DataToBin(None, true, rows, cal)
  {
  }

  ghost predicate Created(cal: seq<Date>, symbols: map<string, Symbol>, source: Source) {
    var symbol := Get(symbols, source.code);
    && Aligned(cal, symbol, source.rows) && source.rows != []
    && symbol.value.end == Greatest(Dates(source.rows))
    && symbol.value.file.value.header < |cal| && cal[symbol.value.file.value.header] == Least(Dates(source.rows))
  }

  lemma {:induction false} AllCreated(cal: seq<Date>, symbols: map<string, Symbol>, sources: seq<Source>)
    requires DistinctCodes(sources) && Ascending(cal) && cal == SortUnique(AllDates(sources))
    requires Applied(cal, map[], sources, |sources|, symbols)
    ensures forall code :: Get(symbols, code) == NextSymbol(cal, None, RowsOf(sources, code))
    ensures forall i :: 0 <= i < |sources| && sources[i].rows != [] ==> Created(cal, symbols, sources[i])
  {
    hide Ascending, Tracks, SortUnique, Dates, Least, Greatest, DataToBin, AllDates;
    AppliedEnd(cal, map[], sources, symbols);
    forall i | 0 <= i < |sources| && sources[i].rows != []
      ensures Created(cal, symbols, sources[i])
    {
      RowsOfMember(sources, i, |sources|);
      assert sources[..|sources|] == sources;
      SymbolStaysAligned(cal, None, [], sources[i].rows);
      NewlyPublished([], sources[i].rows);
    }
  }

  // ----- reading

  /** Reads calendar entries `from` through `until`: the index of the first one that has a cell, and the cells. */
  function ReadBin(file: FieldFile, from: int, until: int): (r: (int, seq<Cell>)) {
    var start := if file.header > from then file.header else from;
    if start > until then (start, [])
    else
      var lo, hi := start - file.header, until + 1 - file.header;
      if lo >= |file.cells| then (start, [])
      else (start, file.cells[lo..if hi <= |file.cells| then hi else |file.cells|])
  }

  /** What a tracking file reads back: the published values of exactly the asked calendar entries it covers. */
  lemma ReadBinTracks(cal: seq<Date>, file: FieldFile, published: seq<Row>, end: Date, from: int, until: int, i: int)
    requires Ascending(cal) && Tracks(cal, file, published, end)
    ensures var (start, cells) := ReadBin(file, from, until);
            start <= i < start + |cells| <==> from <= i <= until && file.header <= i < |cal| && cal[i] <= end
    ensures var (start, cells) := ReadBin(file, from, until);
            start <= i < start + |cells| ==> 0 <= i < |cal| && cells[i - start] == ValueAt(published, cal[i])
  {
    hide Ascending, ValueAt;
    if file.header <= i < |cal| {
      AscendingOrder(cal, i, file.header + |file.cells| - 1);
    }
  }
}
