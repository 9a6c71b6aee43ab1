/** Replaying stored bars slice by slice: `ReplayReader.read_slice` and `HistoricalReplay.iterate` over bar readers. */
module Replay {
  import opened Common
  import opened TimeSeries
  import opened BarStore
  import opened Backfill

  datatype Slice = Slice(start: int, end: int, reader: nat, data: seq<Bar>)

  /** The part of a reader's files in a window. */
  function Cut(files: Files, monthOf: int -> YearMonth, w: Window): seq<Bar> {
    Scan(files, monthOf(w.start), monthOf(w.end), w.start, w.end)
  }

  /** The slices of one window: those of the first `n` readers, skipping readers with nothing there. */
  function SlicesOf(readers: seq<Files>, monthOf: int -> YearMonth, w: Window, n: nat): seq<Slice>
    requires n <= |readers|
  {
    if n == 0 then [] else SlicesOf(readers, monthOf, w, n - 1) + SliceOf(readers[n - 1], monthOf, w, n - 1)
  }

  function SliceOf(files: Files, monthOf: int -> YearMonth, w: Window, reader: nat): seq<Slice> {
    var data := Cut(files, monthOf, w);
    if data == [] then [] else [Slice(w.start, w.end, reader, data)]
  }

  function AllSlices(readers: seq<Files>, monthOf: int -> YearMonth, ws: seq<Window>): seq<Slice> {
    if ws == [] then []
    else SlicesOf(readers, monthOf, ws[0], |readers|) + AllSlices(readers, monthOf, ws[1..])
  }

  class HistoricalReplay {
    const monthOf: int -> YearMonth
    const readers: seq<Files>
    const startTime: int
    const endTime: int
    const interval: int
    var currentTime: int
    var isRunning: bool

    constructor (monthOf: int -> YearMonth, readers: seq<Files>, startTime: int, endTime: int, interval: int)
      ensures this.monthOf == monthOf && this.readers == readers
      ensures this.startTime == startTime && this.endTime == endTime && this.interval == interval
      ensures currentTime == startTime && !isRunning
    {
      this.monthOf, this.readers := monthOf, readers;
      this.startTime, this.endTime, this.interval := startTime, endTime, interval;
      currentTime, isRunning := startTime, false;
    }

    /** Reads one reader's bars in a closed window, month file by month file. */
    method ReadSlice(files: Files, start: int, end: int) returns (results: seq<Bar>)
      requires Calendar(monthOf)
      ensures results == Cut(files, monthOf, Window(start, end))
      ensures forall b :: b in results ==> start <= b.timestamp <= end
      ensures Partitioned(files, monthOf) ==> InFileOrder(results, files, monthOf, start, end)
    {
      CutSound(files, monthOf, Window(start, end));
      hide Range, Calendar, Scan, InFileOrder, Partitioned;
      results := [];
      var current, endMonth := monthOf(start), monthOf(end);
      CalendarAt(monthOf, start, start);
      ghost var all := Scan(files, current, endMonth, start, end);
      while current.Ordinal() <= endMonth.Ordinal()
        invariant current.Proper()
        invariant all == results + Scan(files, current, endMonth, start, end)
        decreases endMonth.Ordinal() - current.Ordinal()
      {
        ScanStep(files, current, endMonth, start, end, results);
        if current in files {
          results := results + Range(files[current], start, end);
        }
        if current.month == 12 {
          current := YearMonth(current.year + 1, 1);
        } else {
          current := YearMonth(current.year, current.month + 1);
        }
      }
      ScanEnd(files, current, endMonth, start, end, results);
    }

    /** One pass over the readers for one window. */
    method ReadWindow(w: Window) returns (slices: seq<Slice>)
      requires Calendar(monthOf)
      ensures slices == SlicesOf(readers, monthOf, w, |readers|)
    {
      hide Cut, Calendar;
      slices := [];
      for k := 0 to |readers|
        invariant slices == SlicesOf(readers, monthOf, w, k)
      {
        var data := ReadSlice(readers[k], w.start, w.end);
        if data != [] {
          slices := slices + [Slice(w.start, w.end, k, data)];
        }
      }
    }

    /** Runs the whole replay, collecting the slices it yields. */
    method Iterate() returns (slices: seq<Slice>)
      requires Calendar(monthOf) && (startTime < endTime ==> interval > 0)
      modifies this
      ensures slices == if startTime < endTime then AllSlices(readers, monthOf, Windows(startTime, endTime, interval)) else []
      ensures forall i :: 0 <= i < |slices| ==> startTime < endTime && SliceSound(slices[i], readers, monthOf)
      ensures forall i :: 0 <= i < |slices| ==>
                Window(slices[i].start, slices[i].end) in Windows(startTime, endTime, interval)
      ensures InWindowOrder(slices)
      ensures currentTime == if startTime < endTime then endTime else startTime
      ensures isRunning
    {
      hide Calendar, SlicesOf, SliceSound, InWindowOrder;
      isRunning, currentTime, slices := true, startTime, [];
      ghost var all := Remaining(startTime);
      while isRunning && currentTime < endTime
        invariant isRunning && startTime <= currentTime
        invariant currentTime <= endTime || currentTime == startTime
        invariant all == slices + Remaining(currentTime)
        decreases endTime - currentTime
      {
        var sliceEnd := Min(currentTime + interval, endTime);
        var w := Window(currentTime, sliceEnd);
        ghost var rest := Windows(sliceEnd, endTime, interval);
        assert Windows(currentTime, endTime, interval) == [w] + rest && ([w] + rest)[1..] == rest;
        var here := ReadWindow(w);
        assert slices + (here + Remaining(sliceEnd)) == (slices + here) + Remaining(sliceEnd);
        slices := slices + here;
        currentTime := sliceEnd;
      }
      assert slices + [] == slices;
      if startTime < endTime {
        SlicesSound(readers, monthOf, Windows(startTime, endTime, interval));
        ReplayOrder(readers, monthOf, startTime, endTime, interval);
      } else {
        NoSlices();
      }
    }

    /** The slices still to come at a time. */
    ghost function Remaining(now: int): seq<Slice>
      requires startTime < endTime ==> interval > 0
      requires startTime <= now
    {
      if now < endTime then AllSlices(readers, monthOf, Windows(now, endTime, interval)) else []
    }
  }

  // ----- what a slice holds

  /** A slice is not empty, its bars lie in its closed window, and they follow the files of its reader. */
  ghost predicate SliceSound(slice: Slice, readers: seq<Files>, monthOf: int -> YearMonth) {
    && slice.reader < |readers| && slice.data != []
    && (forall b :: b in slice.data ==> slice.start <= b.timestamp <= slice.end)
    && (Partitioned(readers[slice.reader], monthOf) ==>
          InFileOrder(slice.data, readers[slice.reader], monthOf, slice.start, slice.end))
  }

  lemma CutSound(files: Files, monthOf: int -> YearMonth, w: Window)
    requires Calendar(monthOf)
    ensures forall b :: b in Cut(files, monthOf, w) ==> w.start <= b.timestamp <= w.end
    ensures Partitioned(files, monthOf) ==> InFileOrder(Cut(files, monthOf, w), files, monthOf, w.start, w.end)
  {
    hide Partitioned, InFileOrder, Scan;
    forall b | b in Cut(files, monthOf, w)
      ensures w.start <= b.timestamp <= w.end
    {
      ScanWithin(files, monthOf(w.start), monthOf(w.end), w.start, w.end, b);
    }
    if Partitioned(files, monthOf) {
      ScanInFileOrder(files, monthOf, w.start, w.end);
    }
  }

  lemma {:induction false} WindowSound(readers: seq<Files>, monthOf: int -> YearMonth, w: Window, n: nat, slice: Slice)
    requires Calendar(monthOf) && n <= |readers| && slice in SlicesOf(readers, monthOf, w, n)
    ensures SliceSound(slice, readers, monthOf) && Window(slice.start, slice.end) == w
  {
    hide Partitioned, InFileOrder, Cut, Calendar;
    if slice in SliceOf(readers[n - 1], monthOf, w, n - 1) {
      CutSound(readers[n - 1], monthOf, w);
    } else {
      WindowSound(readers, monthOf, w, n - 1, slice);
    }
  }

  lemma {:induction false} SliceIsSound(readers: seq<Files>, monthOf: int -> YearMonth, ws: seq<Window>, slice: Slice)
    requires Calendar(monthOf) && slice in AllSlices(readers, monthOf, ws)
    ensures SliceSound(slice, readers, monthOf) && Window(slice.start, slice.end) in ws
  {
    hide SlicesOf, SliceSound, Calendar;
    if slice in SlicesOf(readers, monthOf, ws[0], |readers|) {
      WindowSound(readers, monthOf, ws[0], |readers|, slice);
    } else {
      SliceIsSound(readers, monthOf, ws[1..], slice);
    }
  }

  lemma SlicesSound(readers: seq<Files>, monthOf: int -> YearMonth, ws: seq<Window>)
    requires Calendar(monthOf)
    ensures var slices := AllSlices(readers, monthOf, ws);
            forall i :: 0 <= i < |slices| ==>
              SliceSound(slices[i], readers, monthOf) && Window(slices[i].start, slices[i].end) in ws
  {
    hide SliceSound, Calendar, AllSlices;
    var slices := AllSlices(readers, monthOf, ws);
    forall i | 0 <= i < |slices|
      ensures SliceSound(slices[i], readers, monthOf) && Window(slices[i].start, slices[i].end) in ws
    {
      SliceIsSound(readers, monthOf, ws, slices[i]);
    }
  }

  /** Bars of files in order come in order. */
  lemma SliceOrdered(files: Files, monthOf: int -> YearMonth, w: Window)
    requires Calendar(monthOf) && Partitioned(files, monthOf) && forall m :: Increasing(FileOf(files, m))
    ensures Increasing(Cut(files, monthOf, w))
  {
    hide Partitioned, Scan, Increasing;
    OrderedFilesScanOrdered(files, monthOf, w.start, w.end);
  }

  // ----- what is delivered

  /** How often a bar is handed over for reader `k`. */
  function Deliveries(slices: seq<Slice>, k: nat, b: Bar): nat {
    if slices == [] then 0
    else (if slices[0].reader == k then Copies(slices[0].data, b) else 0) + Deliveries(slices[1..], k, b)
  }

  lemma NoDeliveries(k: nat, b: Bar)
    ensures Deliveries([], k, b) == 0
  {
  }

  lemma {:induction false} DeliveriesAppend(a: seq<Slice>, c: seq<Slice>, k: nat, b: Bar)
    ensures Deliveries(a + c, k, b) == Deliveries(a, k, b) + Deliveries(c, k, b)
  {
    if a == [] {
      assert a + c == c;
    } else {
      assert (a + c)[1..] == a[1..] + c;
      DeliveriesAppend(a[1..], c, k, b);
    }
  }

  lemma OneSlice(files: Files, monthOf: int -> YearMonth, w: Window, reader: nat, k: nat, b: Bar)
    ensures Deliveries(SliceOf(files, monthOf, w, reader), k, b) == if reader == k then Copies(Cut(files, monthOf, w), b) else 0
  {
    hide Cut;
    var one := SliceOf(files, monthOf, w, reader);
    assert one != [] ==> one[1..] == [];
  }

  lemma {:induction false} WindowDeliveries(readers: seq<Files>, monthOf: int -> YearMonth, w: Window, n: nat, k: nat, b: Bar)
    requires n <= |readers| && k < |readers|
    ensures Deliveries(SlicesOf(readers, monthOf, w, n), k, b) == if k < n then Copies(Cut(readers[k], monthOf, w), b) else 0
  {
    hide Cut, Deliveries, Copies, SliceOf;
    NoDeliveries(k, b);
    if n > 0 {
      WindowDeliveries(readers, monthOf, w, n - 1, k, b);
      DeliveriesAppend(SlicesOf(readers, monthOf, w, n - 1), SliceOf(readers[n - 1], monthOf, w, n - 1), k, b);
      OneSlice(readers[n - 1], monthOf, w, n - 1, k, b);
    }
  }

  lemma CutCopies(files: Files, monthOf: int -> YearMonth, w: Window, b: Bar)
    requires Calendar(monthOf) && Partitioned(files, monthOf)
    ensures Copies(Cut(files, monthOf, w), b) == if w.start <= b.timestamp <= w.end then Copies(FileOf(files, monthOf(b.timestamp)), b) else 0
  {
    hide Partitioned, Scan;
    ScanCopies(files, monthOf, monthOf(w.start), monthOf(w.end), w.start, w.end, b);
    CalendarAt(monthOf, w.start, b.timestamp);
    CalendarAt(monthOf, b.timestamp, w.end);
  }

  function Scaled(n: nat, x: nat): nat { n * x }

  lemma ScaledStep(n: nat, x: nat)
    ensures Scaled(0, x) == 0 && Scaled(n + 1, x) == Scaled(n, x) + x
  {
  }

  /** A reader is handed a stored bar once for every window that contains it. */
  lemma {:induction false} DeliveriesAreCovering(readers: seq<Files>, monthOf: int -> YearMonth, ws: seq<Window>, k: nat, b: Bar)
    requires Calendar(monthOf) && k < |readers| && Partitioned(readers[k], monthOf)
    ensures Deliveries(AllSlices(readers, monthOf, ws), k, b) ==
            Scaled(Covering(ws, b.timestamp), Copies(FileOf(readers[k], monthOf(b.timestamp)), b))
  {
    hide Scaled, Calendar, Partitioned, Cut, Deliveries, Copies, SlicesOf, FileOf;
    var stored := Copies(FileOf(readers[k], monthOf(b.timestamp)), b);
    ScaledStep(0, stored);
    NoDeliveries(k, b);
    if ws != [] {
      DeliveriesAreCovering(readers, monthOf, ws[1..], k, b);
      var here := SlicesOf(readers, monthOf, ws[0], |readers|);
      DeliveriesAppend(here, AllSlices(readers, monthOf, ws[1..]), k, b);
      WindowDeliveries(readers, monthOf, ws[0], |readers|, k, b);
      CutCopies(readers[k], monthOf, ws[0], b);
      ScaledStep(Covering(ws[1..], b.timestamp), stored);
    }
  }

  /**
   A full replay hands over every stored bar of the closed range and no other, as often as it is stored,
   and twice as often when it lies on an interior slice boundary.
   */
  lemma ReplayDelivers(readers: seq<Files>, monthOf: int -> YearMonth, start: int, end: int, step: int, k: nat, b: Bar)
    requires step > 0
    requires Calendar(monthOf) && k < |readers| && Partitioned(readers[k], monthOf)
    ensures Deliveries(AllSlices(readers, monthOf, Windows(start, end, step)), k, b) ==
            if start < end && start <= b.timestamp <= end
            then (if InteriorBoundary(start, end, step, b.timestamp) then 2 else 1) * Copies(FileOf(readers[k], monthOf(b.timestamp)), b)
            else 0
  {
    hide Calendar, Partitioned, Deliveries, AllSlices;
    DeliveriesAreCovering(readers, monthOf, Windows(start, end, step), k, b);
    WindowsCover(start, end, step, b.timestamp);
  }

  // ----- the order of the slices

  ghost predicate InWindowOrder(slices: seq<Slice>) {
    forall i, j :: 0 <= i < j < |slices| ==>
      slices[i].end <= slices[j].start
      || (slices[i].start == slices[j].start && slices[i].end == slices[j].end && slices[i].reader < slices[j].reader)
  }

  lemma NoSlices()
    ensures InWindowOrder([])
  {
  }

  lemma {:induction false} WindowSlices(readers: seq<Files>, monthOf: int -> YearMonth, w: Window, n: nat)
    requires n <= |readers|
    ensures var s := SlicesOf(readers, monthOf, w, n);
            forall i :: 0 <= i < |s| ==> s[i].start == w.start && s[i].end == w.end && s[i].reader < n
    ensures InWindowOrder(SlicesOf(readers, monthOf, w, n))
  {
    hide Cut;
    if n > 0 {
      WindowSlices(readers, monthOf, w, n - 1);
      var before, one := SlicesOf(readers, monthOf, w, n - 1), SliceOf(readers[n - 1], monthOf, w, n - 1);
      assert |one| <= 1;
    }
  }

  /** Slices come window by window in time order, and within a window in reader order. */
  lemma {:induction false} ReplayOrder(readers: seq<Files>, monthOf: int -> YearMonth, cur: int, end: int, step: int)
    requires step > 0
    ensures var s := AllSlices(readers, monthOf, Windows(cur, end, step));
            InWindowOrder(s) && forall i :: 0 <= i < |s| ==> cur <= s[i].start < s[i].end <= end
    decreases end - cur
  {
    if cur < end {
      hide SlicesOf;
      var w := Window(cur, Min(cur + step, end));
      var rest := Windows(w.end, end, step);
      assert Windows(cur, end, step) == [w] + rest && ([w] + rest)[1..] == rest;
      ReplayOrder(readers, monthOf, w.end, end, step);
      WindowSlices(readers, monthOf, w, |readers|);
      InOrderConcat(SlicesOf(readers, monthOf, w, |readers|), AllSlices(readers, monthOf, rest), w);
    }
  }

  lemma InOrderConcat(a: seq<Slice>, b: seq<Slice>, w: Window)
    requires InWindowOrder(a) && InWindowOrder(b)
    requires forall i :: 0 <= i < |a| ==> a[i].end == w.end
    requires forall i :: 0 <= i < |b| ==> w.end <= b[i].start
    ensures InWindowOrder(a + b)
  {
  }

  // ----- from the provider to the replay

  /**
   A series backfilled without failures into an empty store and then replayed: every bar of the series in
   both ranges arrives, once, or twice on an interior slice boundary, and nothing else arrives.
   */
  lemma BackfilledReplay(provider: Provider, series: seq<Bar>, from: int, until: int, monthOf: int -> YearMonth,
                         files: Files, start: int, end: int, step: int, b: Bar)
    requires Calendar(monthOf) && Increasing(series) && step > 0
    requires Faithful(provider, series, Windows(from, until, MAX_SPAN))
    requires NeverFails(provider, Windows(from, until, MAX_SPAN))
    requires Holds(files, Delivered(provider, Windows(from, until, MAX_SPAN)), monthOf)
    ensures Deliveries(AllSlices([files], monthOf, Windows(start, end, step)), 0, b) ==
            var t := b.timestamp;
            if start < end && start <= t <= end && from < until && from <= t <= until && Lookup(series, t) == Some(b)
            then (if InteriorBoundary(start, end, step, t) then 2 else 1)
            else 0
  {
    var t := b.timestamp;
    hide Holds, Increasing, Calendar, Partitioned, Faithful, NeverFails, Windows, Deliveries, AllSlices, Delivered, Written;
    var batches := Delivered(provider, Windows(from, until, MAX_SPAN));
    HoldsPartitioned(files, batches, monthOf);
    ReplayDelivers([files], monthOf, start, end, step, 0, b);
    FileSeries(files, batches, monthOf, monthOf(t), t);
    BackfillSeries(provider, series, from, until, t);
    DeliveredIncreasing(provider, series, Windows(from, until, MAX_SPAN));
    FileIncreasing(files, batches, monthOf, monthOf(t));
    IncreasingCopies(FileOf(files, monthOf(t)), b);
  }

  lemma FileIncreasing(files: Files, batches: seq<seq<Bar>>, monthOf: int -> YearMonth, m: YearMonth)
    requires Holds(files, batches, monthOf) && AllIncreasing(batches)
    ensures Increasing(FileOf(files, m))
  {
    OrderedBatches(batches, monthOf, m);
    assert Get(files, m) == Contents(batches, monthOf, m);
  }
}
