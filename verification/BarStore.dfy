/** The monthly partitions of one bar series: `DataStore.write_bars` and `DataStore.read_bars`. */
module BarStore {
  import opened Common
  import opened TimeSeries

  // ----- months

  datatype YearMonth = YearMonth(year: int, month: int) {
    predicate Proper() { 1 <= month <= 12 }

    function Ordinal(): int { 12 * year + month - 1 }

    function Next(): YearMonth {
      if month == 12 then YearMonth(year + 1, 1) else YearMonth(year, month + 1)
    }
  }

  lemma OrdinalInjective(a: YearMonth, b: YearMonth)
    requires a.Proper() && b.Proper() && a.Ordinal() == b.Ordinal()
    ensures a == b
  {
  }

  /** Time runs through proper months without going back. */
  ghost predicate Calendar(monthOf: int -> YearMonth) {
    && (forall t :: monthOf(t).Proper())
    && (forall s, t :: s <= t ==> monthOf(s).Ordinal() <= monthOf(t).Ordinal())
  }

  function InMonth(bars: seq<Bar>, monthOf: int -> YearMonth, m: YearMonth): seq<Bar> {
    if bars == [] then []
    else
      var front, last := InMonth(bars[..|bars| - 1], monthOf, m), bars[|bars| - 1];
      if monthOf(last.timestamp) == m then front + [last] else front
  }

  lemma {:induction false} InMonthAppend(a: seq<Bar>, b: seq<Bar>, monthOf: int -> YearMonth, m: YearMonth)
    ensures InMonth(a + b, monthOf, m) == InMonth(a, monthOf, m) + InMonth(b, monthOf, m)
  {
    if b == [] {
      assert a + b == a;
    } else {
      assert (a + b)[..|a + b| - 1] == a + b[..|b| - 1];
      InMonthAppend(a, b[..|b| - 1], monthOf, m);
    }
  }

  lemma {:induction false} InMonthLookup(bars: seq<Bar>, monthOf: int -> YearMonth, m: YearMonth, t: int)
    ensures Lookup(InMonth(bars, monthOf, m), t) == if monthOf(t) == m then Lookup(bars, t) else None
  {
    if bars != [] {
      var rest, last := bars[..|bars| - 1], bars[|bars| - 1];
      assert bars == rest + [last];
      InMonthLookup(rest, monthOf, m, t);
      LookupAppend(rest, [last], t);
      LookupAppend(InMonth(rest, monthOf, m), [last], t);
    }
  }

  lemma {:induction false} InMonthIncreasing(bars: seq<Bar>, monthOf: int -> YearMonth, m: YearMonth)
    requires Increasing(bars)
    ensures Increasing(InMonth(bars, monthOf, m))
    ensures var r := InMonth(bars, monthOf, m); r != [] ==> bars != [] && r[|r| - 1].timestamp <= bars[|bars| - 1].timestamp
  {
    if bars != [] {
      InMonthIncreasing(bars[..|bars| - 1], monthOf, m);
    }
  }

  // ----- the files, as a function of the batches written

  type Files = map<YearMonth, seq<Bar>>

  function FileOf(files: Files, m: YearMonth): seq<Bar> {
    if m in files then files[m] else []
  }

  function Get(files: Files, m: YearMonth): Option<seq<Bar>> {
    if m in files then Some(files[m]) else None
  }

  /** The bars of all batches, in the order written. */
  function Written(batches: seq<seq<Bar>>): seq<Bar> {
    if batches == [] then [] else Written(batches[..|batches| - 1]) + batches[|batches| - 1]
  }

  lemma WrittenAppend(batches: seq<seq<Bar>>, b: seq<Bar>)
    ensures Written(batches + [b]) == Written(batches) + b
  {
    assert (batches + [b])[..|batches|] == batches;
  }

  /** How many batches wrote to a month. */
  function Times(batches: seq<seq<Bar>>, monthOf: int -> YearMonth, m: YearMonth): nat {
    if batches == [] then 0
    else Times(batches[..|batches| - 1], monthOf, m) + if InMonth(batches[|batches| - 1], monthOf, m) == [] then 0 else 1
  }

  /** A month written once holds its bars as they came; a month written again, the sorted first-written ones. */
  function Contents(batches: seq<seq<Bar>>, monthOf: int -> YearMonth, m: YearMonth): Option<seq<Bar>> {
    var bars := InMonth(Written(batches), monthOf, m);
    match Times(batches, monthOf, m)
    case 0 => None
    case 1 => Some(bars)
    case _ => Some(Canonical(bars))
  }

  /** One more batch: the first write of a month stores it as is, a later one merges. */
  lemma ContentsStep(batches: seq<seq<Bar>>, b: seq<Bar>, monthOf: int -> YearMonth, m: YearMonth)
    ensures var new_ := InMonth(b, monthOf, m);
            var old_ := Contents(batches, monthOf, m);
            Contents(batches + [b], monthOf, m) ==
            if new_ == [] then old_ else if old_ == None then Some(new_) else Some(Canonical(old_.value + new_))
  {
    hide Canonical;
    assert (batches + [b])[..|batches|] == batches;
    WrittenAppend(batches, b);
    InMonthAppend(Written(batches), b, monthOf, m);
    var bars, new_ := InMonth(Written(batches), monthOf, m), InMonth(b, monthOf, m);
    CanonicalAbsorbs(bars, new_);
    NeverWritten(batches, monthOf, m);
    assert bars + [] == bars && [] + new_ == new_;
  }

  lemma {:induction false} NeverWritten(batches: seq<seq<Bar>>, monthOf: int -> YearMonth, m: YearMonth)
    ensures Times(batches, monthOf, m) == 0 <==> InMonth(Written(batches), monthOf, m) == []
  {
    if batches != [] {
      var rest, last := batches[..|batches| - 1], batches[|batches| - 1];
      NeverWritten(rest, monthOf, m);
      InMonthAppend(Written(rest), last, monthOf, m);
    }
  }

  ghost predicate Holds(files: Files, batches: seq<seq<Bar>>, monthOf: int -> YearMonth) {
    forall m :: Get(files, m) == Contents(batches, monthOf, m)
  }

  /** Whatever the order of the bars, a file stands for the first-written bars of its month. */
  lemma FileSeries(files: Files, batches: seq<seq<Bar>>, monthOf: int -> YearMonth, m: YearMonth, t: int)
    requires Holds(files, batches, monthOf)
    ensures Lookup(FileOf(files, m), t) == if monthOf(t) == m then Lookup(Written(batches), t) else None
  {
    hide Canonical;
    var bars := InMonth(Written(batches), monthOf, m);
    assert Get(files, m) == Contents(batches, monthOf, m);
    InMonthLookup(Written(batches), monthOf, m, t);
    NeverWritten(batches, monthOf, m);
    CanonicalSpec(bars);
    SameAt(Canonical(bars), bars, t);
  }

  /** How often a bar is stored: as often as it came while its month was written once, then once if it was the first. */
  function StoredCopies(batches: seq<seq<Bar>>, monthOf: int -> YearMonth, b: Bar): nat {
    if Times(batches, monthOf, monthOf(b.timestamp)) == 1 then Copies(Written(batches), b)
    else if Lookup(Written(batches), b.timestamp) == Some(b) then 1 else 0
  }

  lemma {:induction false} InMonthCopies(bars: seq<Bar>, monthOf: int -> YearMonth, b: Bar)
    ensures Copies(InMonth(bars, monthOf, monthOf(b.timestamp)), b) == Copies(bars, b)
  {
    if bars != [] {
      var front, last, m := bars[..|bars| - 1], bars[|bars| - 1], monthOf(b.timestamp);
      InMonthCopies(front, monthOf, b);
      assert bars == front + [last];
      CopiesAppend(front, [last], b);
      CopiesAppend(InMonth(front, monthOf, m), [last], b);
    }
  }

  /** A file holds nothing but that. */
  lemma FileCopies(files: Files, batches: seq<seq<Bar>>, monthOf: int -> YearMonth, b: Bar)
    requires Holds(files, batches, monthOf)
    ensures Copies(FileOf(files, monthOf(b.timestamp)), b) == StoredCopies(batches, monthOf, b)
  {
    hide Canonical, Increasing, SameSeries, Copies;
    var m := monthOf(b.timestamp);
    var bars := InMonth(Written(batches), monthOf, m);
    assert Get(files, m) == Contents(batches, monthOf, m);
    InMonthCopies(Written(batches), monthOf, b);
    InMonthLookup(Written(batches), monthOf, m, b.timestamp);
    NeverWritten(batches, monthOf, m);
    CanonicalSpec(bars);
    SameAt(Canonical(bars), bars, b.timestamp);
    IncreasingCopies(Canonical(bars), b);
    NothingIncreasing([]);
    IncreasingCopies([], b);
  }

  // ----- reading

  /** The months from `m` through `last`, each file cut to the range. */
  function Scan(files: Files, m: YearMonth, last: YearMonth, s: int, e: int): seq<Bar>
    decreases last.Ordinal() - m.Ordinal()
  {
    if m.Ordinal() > last.Ordinal() || !m.Proper() then []
    else Range(FileOf(files, m), s, e) + Scan(files, m.Next(), last, s, e)
  }

  /** One month of a scan on top of what is already read; a missing file adds nothing. */
  lemma ScanStep(files: Files, m: YearMonth, last: YearMonth, s: int, e: int, done: seq<Bar>)
    requires m.Proper() && m.Ordinal() <= last.Ordinal()
    ensures done + Scan(files, m, last, s, e) ==
            (if m in files then done + Range(files[m], s, e) else done) + Scan(files, m.Next(), last, s, e)
  {
    hide Range;
    RangeOfNothing(s, e);
    var part, rest := Range(FileOf(files, m), s, e), Scan(files, m.Next(), last, s, e);
    assert done + (part + rest) == (done + part) + rest && done + [] == done;
  }

  lemma ScanEnd(files: Files, m: YearMonth, last: YearMonth, s: int, e: int, done: seq<Bar>)
    requires m.Ordinal() > last.Ordinal()
    ensures done + Scan(files, m, last, s, e) == done
  {
  }

  lemma RangeOfNothing(s: int, e: int)
    ensures Range([], s, e) == []
  {
  }

  /** Every file holds bars of its own month only. */
  ghost predicate Partitioned(files: Files, monthOf: int -> YearMonth) {
    forall m, t :: monthOf(t) != m ==> Lookup(FileOf(files, m), t) == None
  }

  lemma {:induction false} ScanLookup(files: Files, monthOf: int -> YearMonth, m: YearMonth, last: YearMonth, s: int, e: int, t: int)
    requires Calendar(monthOf) && Partitioned(files, monthOf) && m.Proper() && last.Proper()
    ensures Lookup(Scan(files, m, last, s, e), t) ==
            if m.Ordinal() <= monthOf(t).Ordinal() <= last.Ordinal() && s <= t <= e
            then Lookup(FileOf(files, monthOf(t)), t) else None
    decreases last.Ordinal() - m.Ordinal()
  {
    if m.Ordinal() <= last.Ordinal() {
      ScanLookup(files, monthOf, m.Next(), last, s, e, t);
      LookupAppend(Range(FileOf(files, m), s, e), Scan(files, m.Next(), last, s, e), t);
      RangeLookup(FileOf(files, m), s, e, t);
      if monthOf(t).Ordinal() == m.Ordinal() {
        OrdinalInjective(monthOf(t), m);
      }
    }
  }

  lemma {:induction false} ScanCopies(files: Files, monthOf: int -> YearMonth, m: YearMonth, last: YearMonth, s: int, e: int, b: Bar)
    requires Calendar(monthOf) && Partitioned(files, monthOf) && m.Proper() && last.Proper()
    ensures var month := monthOf(b.timestamp);
            Copies(Scan(files, m, last, s, e), b) ==
            if m.Ordinal() <= month.Ordinal() <= last.Ordinal() && s <= b.timestamp <= e then Copies(FileOf(files, month), b) else 0
    decreases last.Ordinal() - m.Ordinal()
  {
    if m.Ordinal() <= last.Ordinal() {
      ScanCopies(files, monthOf, m.Next(), last, s, e, b);
      CopiesAppend(Range(FileOf(files, m), s, e), Scan(files, m.Next(), last, s, e), b);
      RangeCopies(FileOf(files, m), s, e, b);
      if monthOf(b.timestamp) != m {
        NoCopies(FileOf(files, m), b);
      }
      if monthOf(b.timestamp).Ordinal() == m.Ordinal() {
        OrdinalInjective(monthOf(b.timestamp), m);
      }
    }
  }

  ghost predicate Before(a: seq<Bar>, b: seq<Bar>) {
    forall i, j :: 0 <= i < |a| && 0 <= j < |b| ==> a[i].timestamp < b[j].timestamp
  }

  /** Bars of a later month come later. */
  lemma MonthsApart(files: Files, monthOf: int -> YearMonth, m: YearMonth, last: YearMonth, s: int, e: int)
    requires Calendar(monthOf) && Partitioned(files, monthOf) && m.Proper() && last.Proper()
    ensures Before(Range(FileOf(files, m), s, e), Scan(files, m.Next(), last, s, e))
  {
    var a, b := Range(FileOf(files, m), s, e), Scan(files, m.Next(), last, s, e);
    forall i, j | 0 <= i < |a| && 0 <= j < |b|
      ensures a[i].timestamp < b[j].timestamp
    {
      var x, y := a[i].timestamp, b[j].timestamp;
      LookupNone(a, x);
      RangeLookup(FileOf(files, m), s, e, x);
      LookupNone(b, y);
      ScanLookup(files, monthOf, m.Next(), last, s, e, y);
      assert monthOf(x) == m && monthOf(y).Ordinal() > m.Ordinal();
    }
  }

  lemma IncreasingConcat(a: seq<Bar>, b: seq<Bar>)
    requires Before(a, b)
    ensures Increasing(a + b) <==> Increasing(a) && Increasing(b)
  {
    var c := a + b;
    if Increasing(c) {
      forall i, j | 0 <= i < j < |a|
        ensures a[i].timestamp < a[j].timestamp
      {
        assert c[i].timestamp < c[j].timestamp;
      }
      forall i, j | 0 <= i < j < |b|
        ensures b[i].timestamp < b[j].timestamp
      {
        assert c[|a| + i].timestamp < c[|a| + j].timestamp;
      }
    }
  }

  ghost predicate MonthsInOrder(files: Files, m: YearMonth, last: YearMonth, s: int, e: int) {
    forall x: YearMonth :: x.Proper() && m.Ordinal() <= x.Ordinal() <= last.Ordinal() ==> Increasing(Range(FileOf(files, x), s, e))
  }

  lemma MonthsInOrderStep(files: Files, m: YearMonth, last: YearMonth, s: int, e: int)
    requires m.Proper() && m.Ordinal() <= last.Ordinal()
    ensures MonthsInOrder(files, m, last, s, e) <==>
            Increasing(Range(FileOf(files, m), s, e)) && MonthsInOrder(files, m.Next(), last, s, e)
  {
    hide Increasing, Range, FileOf;
    forall x: YearMonth | x.Proper() && m.Ordinal() <= x.Ordinal() <= last.Ordinal()
      ensures x == m || m.Next().Ordinal() <= x.Ordinal()
    {
      if x.Ordinal() == m.Ordinal() {
        OrdinalInjective(x, m);
      }
    }
  }

  /** A scan is in order exactly when every month's part of it is. */
  lemma {:induction false} ScanIncreasing(files: Files, monthOf: int -> YearMonth, m: YearMonth, last: YearMonth, s: int, e: int)
    requires Calendar(monthOf) && Partitioned(files, monthOf) && m.Proper() && last.Proper()
    ensures Increasing(Scan(files, m, last, s, e)) <==> MonthsInOrder(files, m, last, s, e)
    decreases last.Ordinal() - m.Ordinal()
  {
    if m.Ordinal() <= last.Ordinal() {
      hide Increasing, Calendar, Partitioned, Before, MonthsInOrder, Range, FileOf;
      ScanIncreasing(files, monthOf, m.Next(), last, s, e);
      MonthsApart(files, monthOf, m, last, s, e);
      IncreasingConcat(Range(FileOf(files, m), s, e), Scan(files, m.Next(), last, s, e));
      MonthsInOrderStep(files, m, last, s, e);
    }
  }

  /** Order is lost only in months written once, by a batch that was itself out of order there. */
  ghost predicate OrderedOnce(batches: seq<seq<Bar>>, monthOf: int -> YearMonth, s: int, e: int) {
    forall m :: Times(batches, monthOf, m) == 1 ==> Increasing(Range(InMonth(Written(batches), monthOf, m), s, e))
  }

  /** A read between two points returns, of all batches written, the first-written bar of every timestamp in the range. */
  lemma ReadSeries(files: Files, batches: seq<seq<Bar>>, monthOf: int -> YearMonth, s: int, e: int, t: int)
    requires Calendar(monthOf) && Holds(files, batches, monthOf)
    ensures Lookup(Scan(files, monthOf(s), monthOf(e), s, e), t) ==
            if s <= t <= e then Lookup(Written(batches), t) else None
  {
    hide Holds, Partitioned, Scan;
    HoldsPartitioned(files, batches, monthOf);
    ScanLookup(files, monthOf, monthOf(s), monthOf(e), s, e, t);
    FileSeries(files, batches, monthOf, monthOf(t), t);
  }

  /** A read returns every bar of the range as often as it is stored, and no other bar. */
  lemma ReadCopies(files: Files, batches: seq<seq<Bar>>, monthOf: int -> YearMonth, s: int, e: int, b: Bar)
    requires Calendar(monthOf) && Holds(files, batches, monthOf)
    ensures Copies(Scan(files, monthOf(s), monthOf(e), s, e), b) ==
            if s <= b.timestamp <= e then StoredCopies(batches, monthOf, b) else 0
  {
    hide Holds, Partitioned, Scan, Copies, StoredCopies;
    HoldsPartitioned(files, batches, monthOf);
    ScanCopies(files, monthOf, monthOf(s), monthOf(e), s, e, b);
    FileCopies(files, batches, monthOf, b);
    CalendarAt(monthOf, s, b.timestamp);
    CalendarAt(monthOf, b.timestamp, e);
  }

  /** A read is in strictly increasing order exactly when no month is left as a single unordered batch. */
  lemma ReadOrder(files: Files, batches: seq<seq<Bar>>, monthOf: int -> YearMonth, s: int, e: int)
    requires Calendar(monthOf) && Holds(files, batches, monthOf)
    ensures Increasing(Scan(files, monthOf(s), monthOf(e), s, e)) <==> OrderedOnce(batches, monthOf, s, e)
  {
    hide Increasing, Contents, Holds, Scan, Partitioned, Range, FileOf;
    HoldsPartitioned(files, batches, monthOf);
    ScanIncreasing(files, monthOf, monthOf(s), monthOf(e), s, e);
    forall m: YearMonth
      ensures Increasing(Range(FileOf(files, m), s, e)) <==>
              (Times(batches, monthOf, m) == 1 ==> Increasing(Range(InMonth(Written(batches), monthOf, m), s, e)))
      ensures !(m.Proper() && monthOf(s).Ordinal() <= m.Ordinal() <= monthOf(e).Ordinal()) ==>
              Increasing(Range(FileOf(files, m), s, e))
    {
      FileOrder(files, batches, monthOf, m, s, e);
      if !(m.Proper() && monthOf(s).Ordinal() <= m.Ordinal() <= monthOf(e).Ordinal()) {
        OutsideRange(files, monthOf, m, s, e);
        NothingIncreasing(Range(FileOf(files, m), s, e));
      }
    }
  }

  lemma NothingIncreasing(bars: seq<Bar>)
    requires bars == []
    ensures Increasing(bars)
  {
  }

  lemma HoldsPartitioned(files: Files, batches: seq<seq<Bar>>, monthOf: int -> YearMonth)
    requires Holds(files, batches, monthOf)
    ensures Partitioned(files, monthOf)
  {
    hide Holds;
    forall m, t | monthOf(t) != m
      ensures Lookup(FileOf(files, m), t) == None
    {
      FileSeries(files, batches, monthOf, m, t);
    }
  }

  lemma FileOrder(files: Files, batches: seq<seq<Bar>>, monthOf: int -> YearMonth, m: YearMonth, s: int, e: int)
    requires Holds(files, batches, monthOf)
    ensures Increasing(Range(FileOf(files, m), s, e)) <==>
            (Times(batches, monthOf, m) == 1 ==> Increasing(Range(InMonth(Written(batches), monthOf, m), s, e)))
  {
    hide Canonical;
    var bars := InMonth(Written(batches), monthOf, m);
    assert Get(files, m) == Contents(batches, monthOf, m);
    if Times(batches, monthOf, m) > 1 {
      CanonicalSpec(bars);
      RangeIncreasing(Canonical(bars), s, e);
    }
  }

  lemma PartitionedAt(files: Files, monthOf: int -> YearMonth, m: YearMonth, t: int)
    requires Partitioned(files, monthOf)
    ensures Lookup(FileOf(files, m), t).Some? ==> monthOf(t) == m
  {
  }

  lemma CalendarAt(monthOf: int -> YearMonth, s: int, t: int)
    requires Calendar(monthOf)
    ensures monthOf(s).Proper()
    ensures s <= t ==> monthOf(s).Ordinal() <= monthOf(t).Ordinal()
  {
  }

  lemma OutsideRange(files: Files, monthOf: int -> YearMonth, m: YearMonth, s: int, e: int)
    requires Calendar(monthOf) && Partitioned(files, monthOf)
    requires !(m.Proper() && monthOf(s).Ordinal() <= m.Ordinal() <= monthOf(e).Ordinal())
    ensures Range(FileOf(files, m), s, e) == []
  {
    var bars := Range(FileOf(files, m), s, e);
    if bars != [] {
      var t := bars[0].timestamp;
      RangeLookup(FileOf(files, m), s, e, t);
      PartitionedAt(files, monthOf, m, t);
      CalendarAt(monthOf, s, t);
      CalendarAt(monthOf, t, e);
      assert false;
    }
  }

  // ----- the order of a scan

  /** Months never go back, and the bars of each month are those of its file in the range, in the order of the file. */
  ghost predicate InFileOrder(data: seq<Bar>, files: Files, monthOf: int -> YearMonth, s: int, e: int) {
    && (forall i, j :: 0 <= i < j < |data| ==> monthOf(data[i].timestamp).Ordinal() <= monthOf(data[j].timestamp).Ordinal())
    && (forall m :: InMonth(data, monthOf, m) == Range(FileOf(files, m), s, e))
  }

  ghost predicate OfMonth(bars: seq<Bar>, monthOf: int -> YearMonth, m: YearMonth) {
    forall b :: b in bars ==> monthOf(b.timestamp) == m
  }

  lemma {:induction false} InMonthOnly(bars: seq<Bar>, monthOf: int -> YearMonth, m: YearMonth, x: YearMonth)
    requires OfMonth(bars, monthOf, m)
    ensures InMonth(bars, monthOf, x) == if x == m then bars else []
  {
    if bars != [] {
      var front, last := bars[..|bars| - 1], bars[|bars| - 1];
      assert bars == front + [last] && last in bars;
      InMonthOnly(front, monthOf, m, x);
    }
  }

  lemma RangeOfMonth(files: Files, monthOf: int -> YearMonth, m: YearMonth, s: int, e: int)
    requires Partitioned(files, monthOf)
    ensures OfMonth(Range(FileOf(files, m), s, e), monthOf, m)
  {
    hide Partitioned;
    forall b | b in Range(FileOf(files, m), s, e)
      ensures monthOf(b.timestamp) == m
    {
      RangeBar(FileOf(files, m), s, e, b);
      LookupNone(FileOf(files, m), b.timestamp);
      PartitionedAt(files, monthOf, m, b.timestamp);
    }
  }

  lemma {:induction false} ScanMonths(files: Files, monthOf: int -> YearMonth, m: YearMonth, last: YearMonth, s: int, e: int, x: YearMonth)
    requires Partitioned(files, monthOf) && m.Proper() && last.Proper()
    ensures InMonth(Scan(files, m, last, s, e), monthOf, x) ==
            if x.Proper() && m.Ordinal() <= x.Ordinal() <= last.Ordinal() then Range(FileOf(files, x), s, e) else []
    decreases last.Ordinal() - m.Ordinal()
  {
    hide Partitioned, Range, OfMonth;
    if m.Ordinal() <= last.Ordinal() {
      ScanMonths(files, monthOf, m.Next(), last, s, e, x);
      var part, rest := Range(FileOf(files, m), s, e), Scan(files, m.Next(), last, s, e);
      InMonthAppend(part, rest, monthOf, x);
      RangeOfMonth(files, monthOf, m, s, e);
      InMonthOnly(part, monthOf, m, x);
      if x.Proper() && x.Ordinal() == m.Ordinal() {
        OrdinalInjective(x, m);
      }
      assert part + [] == part && [] + InMonth(rest, monthOf, x) == InMonth(rest, monthOf, x);
    }
  }

  ghost predicate Forward(data: seq<Bar>, monthOf: int -> YearMonth, from: int) {
    && (forall i :: 0 <= i < |data| ==> from <= monthOf(data[i].timestamp).Ordinal())
    && (forall i, j :: 0 <= i < j < |data| ==> monthOf(data[i].timestamp).Ordinal() <= monthOf(data[j].timestamp).Ordinal())
  }

  lemma ForwardConcat(a: seq<Bar>, b: seq<Bar>, monthOf: int -> YearMonth, m: YearMonth)
    requires OfMonth(a, monthOf, m) && Forward(b, monthOf, m.Ordinal() + 1)
    ensures Forward(a + b, monthOf, m.Ordinal())
  {
    var data := a + b;
    assert forall i :: 0 <= i < |a| ==> a[i] in a && monthOf(data[i].timestamp) == m;
    assert forall i :: |a| <= i < |data| ==> data[i] == b[i - |a|];
  }

  lemma {:induction false} ScanForward(files: Files, monthOf: int -> YearMonth, m: YearMonth, last: YearMonth, s: int, e: int)
    requires Partitioned(files, monthOf) && m.Proper()
    ensures Forward(Scan(files, m, last, s, e), monthOf, m.Ordinal())
    decreases last.Ordinal() - m.Ordinal()
  {
    if m.Ordinal() <= last.Ordinal() {
      hide Partitioned, Range, Forward, OfMonth;
      ScanForward(files, monthOf, m.Next(), last, s, e);
      RangeOfMonth(files, monthOf, m, s, e);
      ForwardConcat(Range(FileOf(files, m), s, e), Scan(files, m.Next(), last, s, e), monthOf, m);
    }
  }

  /** A scan of a range follows the files. */
  lemma ScanInFileOrder(files: Files, monthOf: int -> YearMonth, s: int, e: int)
    requires Calendar(monthOf) && Partitioned(files, monthOf)
    ensures InFileOrder(Scan(files, monthOf(s), monthOf(e), s, e), files, monthOf, s, e)
  {
    hide Partitioned, Range, InMonth, Scan;
    CalendarAt(monthOf, s, s);
    CalendarAt(monthOf, e, e);
    var data := Scan(files, monthOf(s), monthOf(e), s, e);
    ScanForward(files, monthOf, monthOf(s), monthOf(e), s, e);
    forall m: YearMonth
      ensures InMonth(data, monthOf, m) == Range(FileOf(files, m), s, e)
    {
      ScanMonths(files, monthOf, monthOf(s), monthOf(e), s, e, m);
      if !(m.Proper() && monthOf(s).Ordinal() <= m.Ordinal() <= monthOf(e).Ordinal()) {
        OutsideRange(files, monthOf, m, s, e);
      }
    }
  }

  /** Every bar of a scan lies in the range, whatever the files hold. */
  lemma {:induction false} ScanWithin(files: Files, m: YearMonth, last: YearMonth, s: int, e: int, b: Bar)
    requires b in Scan(files, m, last, s, e)
    ensures s <= b.timestamp <= e
    decreases last.Ordinal() - m.Ordinal()
  {
    if b in Range(FileOf(files, m), s, e) {
      RangeBar(FileOf(files, m), s, e, b);
    } else {
      ScanWithin(files, m.Next(), last, s, e, b);
    }
  }

  /** Files in increasing order are scanned in increasing order. */
  lemma OrderedFilesScanOrdered(files: Files, monthOf: int -> YearMonth, s: int, e: int)
    requires Calendar(monthOf) && Partitioned(files, monthOf) && forall m :: Increasing(FileOf(files, m))
    ensures Increasing(Scan(files, monthOf(s), monthOf(e), s, e))
  {
    hide Partitioned, Range, Scan, Increasing;
    CalendarAt(monthOf, s, s);
    CalendarAt(monthOf, e, e);
    forall m: YearMonth
      ensures Increasing(Range(FileOf(files, m), s, e))
    {
      RangeIncreasing(FileOf(files, m), s, e);
    }
    ScanIncreasing(files, monthOf, monthOf(s), monthOf(e), s, e);
  }

  ghost predicate AllIncreasing(batches: seq<seq<Bar>>) {
    forall i :: 0 <= i < |batches| ==> Increasing(batches[i])
  }

  /** Batches that arrive in order leave every month in order. */
  lemma {:induction false} OrderedBatches(batches: seq<seq<Bar>>, monthOf: int -> YearMonth, m: YearMonth)
    requires AllIncreasing(batches)
    ensures Times(batches, monthOf, m) == 1 ==> Increasing(InMonth(Written(batches), monthOf, m))
    ensures Contents(batches, monthOf, m).Some? ==> Increasing(Contents(batches, monthOf, m).value)
  {
    hide Increasing, Canonical;
    CanonicalSpec(InMonth(Written(batches), monthOf, m));
    if batches != [] {
      var rest, last := batches[..|batches| - 1], batches[|batches| - 1];
      OrderedBatches(rest, monthOf, m);
      InMonthAppend(Written(rest), last, monthOf, m);
      NeverWritten(rest, monthOf, m);
      InMonthIncreasing(last, monthOf, m);
      assert [] + InMonth(last, monthOf, m) == InMonth(last, monthOf, m);
      assert InMonth(Written(rest), monthOf, m) + [] == InMonth(Written(rest), monthOf, m);
    }
  }

  lemma OrderedBatchesReadOrdered(batches: seq<seq<Bar>>, monthOf: int -> YearMonth, s: int, e: int)
    requires AllIncreasing(batches)
    ensures OrderedOnce(batches, monthOf, s, e)
  {
    hide Increasing;
    forall m | Times(batches, monthOf, m) == 1
      ensures Increasing(Range(InMonth(Written(batches), monthOf, m), s, e))
    {
      OrderedBatches(batches, monthOf, m);
      RangeIncreasing(InMonth(Written(batches), monthOf, m), s, e);
    }
  }

  /** A month written by one batch in the wrong order is read in the wrong order. */
  lemma UnorderedFirstBatch(monthOf: int -> YearMonth, early: Bar, late: Bar)
    requires Calendar(monthOf) && early.timestamp < late.timestamp && monthOf(early.timestamp) == monthOf(late.timestamp)
    ensures !OrderedOnce([[late, early]], monthOf, early.timestamp, late.timestamp)
  {
    var m, batches := monthOf(early.timestamp), [[late, early]];
    assert batches[..0] == [] && Written(batches) == [] + [late, early] == [late, early];
    InMonthOne(late, monthOf, m);
    assert [late, early][..1] == [late];
    assert InMonth([late, early], monthOf, m) == [late, early];
    assert Times(batches, monthOf, m) == 1;
    var r := Range([late, early], early.timestamp, late.timestamp);
    assert [late, early][1..] == [early] && [early][1..] == [];
    assert Range([early], early.timestamp, late.timestamp) == [early] + Range([], early.timestamp, late.timestamp);
    assert r == [late] + Range([early], early.timestamp, late.timestamp);
    assert r == [late, early];
    assert r[0].timestamp > r[1].timestamp;
  }

  // ----- the store

  class DataStore {
    const monthOf: int -> YearMonth
    var files: Files
    ghost var batches: seq<seq<Bar>>

    ghost predicate Valid()
      reads this
    {
      Calendar(monthOf) && Holds(files, batches, monthOf)
    }

    constructor (monthOf: int -> YearMonth)
      requires Calendar(monthOf)
      ensures Valid() && batches == [] && files == map[] && this.monthOf == monthOf
    {
      this.monthOf := monthOf;
      files, batches := map[], [];
    }

    /** Merges records into one month's file. */
    method WritePartition(m: YearMonth, records: seq<Bar>) returns (written: nat)
      modifies `files
      ensures written == |records|
      ensures files == if records == [] then old(files)
                       else old(files)[m := if m in old(files) then Canonical(old(files)[m] + records) else records]
    {
      if records == [] {
        return 0;
      }
      var combined;
      if m in files {
        combined := files[m] + records;
        combined := DropDuplicates(combined);
        combined := SortByTime(combined);
      } else {
        combined := records;
      }
      files := files[m := combined];
      written := |records|;
    }

    /** Groups bars by month, keeping the order in which the months first appear. */
    method GroupByMonth(bars: seq<Bar>) returns (byMonth: map<YearMonth, seq<Bar>>, order: seq<YearMonth>)
      ensures Grouped(byMonth, order, bars, monthOf)
      ensures Total(byMonth, order) == |bars|
    {
      hide Total, Grouped;
      byMonth, order := map[], [];
      NothingGrouped(monthOf);
      for i := 0 to |bars|
        invariant Grouped(byMonth, order, bars[..i], monthOf) && Total(byMonth, order) == i
      {
        var key := monthOf(bars[i].timestamp);
        assert bars[..i + 1] == bars[..i] + [bars[i]];
        GroupedStep(byMonth, order, bars[..i], bars[i], monthOf);
        if key !in byMonth {
          byMonth := byMonth[key := []];
          order := order + [key];
        }
        byMonth := byMonth[key := byMonth[key] + [bars[i]]];
      }
      assert bars[..|bars|] == bars;
    }

    /** Writes the groups of a batch, each to its month. */
    method WriteMonths(byMonth: map<YearMonth, seq<Bar>>, order: seq<YearMonth>, bars: seq<Bar>) returns (written: nat)
      requires Valid() && Grouped(byMonth, order, bars, monthOf)
      modifies `files
      ensures written == Total(byMonth, order)
      ensures forall m :: Get(files, m) == Contents(batches + [bars], monthOf, m)
    {
      hide Contents, InMonth, Canonical;
      written := 0;
      for i := 0 to |order|
        invariant forall m :: Get(files, m) ==
                    if m in order[..i] then Contents(batches + [bars], monthOf, m) else Contents(batches, monthOf, m)
        invariant written == Total(byMonth, order[..i])
      {
        var m := order[i];
        assert order[..i + 1] == order[..i] + [m];
        assert order[..i + 1][..i] == order[..i];
        assert m in order && m in byMonth && m !in order[..i];
        ContentsStep(batches, bars, monthOf, m);
        ghost var before := files;
        var n := WritePartition(m, byMonth[m]);
        assert forall x :: x != m ==> Get(files, x) == Get(before, x);
        written := written + n;
      }
      assert order[..|order|] == order;
      forall m
        ensures Get(files, m) == Contents(batches + [bars], monthOf, m)
      {
        ContentsStep(batches, bars, monthOf, m);
      }
    }

    /** Writes a batch and reports how many bars it had. */
    method WriteBars(bars: seq<Bar>) returns (written: nat)
      requires Valid()
      modifies this
      ensures Valid() && batches == old(batches) + [bars] && written == |bars|
    {
      hide Contents, Calendar, Grouped;
      written := 0;
      if bars != [] {
        var byMonth, order := GroupByMonth(bars);
        written := WriteMonths(byMonth, order, bars);
      } else {
        forall m
          ensures Contents(batches + [bars], monthOf, m) == Contents(batches, monthOf, m)
        {
          ContentsStep(batches, bars, monthOf, m);
        }
      }
      batches := batches + [bars];
    }

    /** Reads a closed range, month file by month file. */
    method ReadBars(start: int, end: int) returns (bars: seq<Bar>)
      requires Valid()
      ensures bars == Scan(files, monthOf(start), monthOf(end), start, end)
      ensures forall t :: Lookup(bars, t) == if start <= t <= end then Lookup(Written(batches), t) else None
      ensures forall b :: Copies(bars, b) == if start <= b.timestamp <= end then StoredCopies(batches, monthOf, b) else 0
      ensures Increasing(bars) <==> OrderedOnce(batches, monthOf, start, end)
      ensures InFileOrder(bars, files, monthOf, start, end)
    {
      hide Holds, Increasing, Range, Scan, OrderedOnce, Copies, StoredCopies, InFileOrder, Partitioned;
      bars := [];
      var current, endMonth := monthOf(start), monthOf(end);
      ghost var all := Scan(files, current, endMonth, start, end);
      while current.Ordinal() <= endMonth.Ordinal()
        invariant current.Proper()
        invariant all == bars + Scan(files, current, endMonth, start, end)
        decreases endMonth.Ordinal() - current.Ordinal()
      {
        ScanStep(files, current, endMonth, start, end, bars);
        if current in files {
          bars := bars + Range(files[current], start, end);
        }
        if current.month == 12 {
          current := YearMonth(current.year + 1, 1);
        } else {
          current := YearMonth(current.year, current.month + 1);
        }
      }
      ScanEnd(files, current, endMonth, start, end, bars);
      ReadOrder(files, batches, monthOf, start, end);
      HoldsPartitioned(files, batches, monthOf);
      ScanInFileOrder(files, monthOf, start, end);
      forall t
        ensures Lookup(bars, t) == if start <= t <= end then Lookup(Written(batches), t) else None
      {
        ReadSeries(files, batches, monthOf, start, end, t);
      }
      forall b: Bar
        ensures Copies(bars, b) == if start <= b.timestamp <= end then StoredCopies(batches, monthOf, b) else 0
      {
        ReadCopies(files, batches, monthOf, start, end, b);
      }
    }
  }

  // ----- grouping

  ghost predicate Grouped(byMonth: map<YearMonth, seq<Bar>>, order: seq<YearMonth>, bars: seq<Bar>, monthOf: int -> YearMonth) {
    && (forall m :: FileOf(byMonth, m) == InMonth(bars, monthOf, m))
    && (forall m :: m in order <==> m in byMonth)
    && (forall m :: m in byMonth ==> byMonth[m] != [])
    && (forall i, j :: 0 <= i < j < |order| ==> order[i] != order[j])
  }

  lemma NothingGrouped(monthOf: int -> YearMonth)
    ensures Grouped(map[], [], [], monthOf) && Total(map[], []) == 0
  {
  }

  lemma GroupedStep(byMonth: map<YearMonth, seq<Bar>>, order: seq<YearMonth>, bars: seq<Bar>, b: Bar, monthOf: int -> YearMonth)
    requires Grouped(byMonth, order, bars, monthOf)
    ensures var key := monthOf(b.timestamp);
            var byMonth' := if key in byMonth then byMonth else byMonth[key := []];
            var order' := if key in byMonth then order else order + [key];
            && Grouped(byMonth'[key := byMonth'[key] + [b]], order', bars + [b], monthOf)
            && Total(byMonth'[key := byMonth'[key] + [b]], order') == Total(byMonth, order) + 1
  {
    hide Total, InMonth;
    var key := monthOf(b.timestamp);
    var byMonth' := if key in byMonth then byMonth else byMonth[key := []];
    var order' := if key in byMonth then order else order + [key];
    if key !in byMonth {
      TotalExtend(byMonth, order, key);
    }
    TotalUpdate(byMonth', order', key, b);
    assert key in order';
    forall m
      ensures FileOf(byMonth'[key := byMonth'[key] + [b]], m) == InMonth(bars + [b], monthOf, m)
    {
      InMonthAppend(bars, [b], monthOf, m);
      InMonthOne(b, monthOf, m);
      assert FileOf(byMonth, m) == InMonth(bars, monthOf, m);
    }
  }

  lemma InMonthOne(b: Bar, monthOf: int -> YearMonth, m: YearMonth)
    ensures InMonth([b], monthOf, m) == if monthOf(b.timestamp) == m then [b] else []
  {
    assert [b][..0] == [];
  }

  function Total(byMonth: map<YearMonth, seq<Bar>>, order: seq<YearMonth>): nat {
    if order == [] then 0
    else
      var m := order[|order| - 1];
      Total(byMonth, order[..|order| - 1]) + if m in byMonth then |byMonth[m]| else 0
  }

  lemma {:induction false} TotalExtend(byMonth: map<YearMonth, seq<Bar>>, order: seq<YearMonth>, key: YearMonth)
    requires key !in byMonth
    ensures Total(byMonth[key := []], order + [key]) == Total(byMonth, order)
  {
    assert (order + [key])[..|order|] == order;
    TotalIgnores(byMonth, order, key);
  }

  lemma {:induction false} TotalIgnores(byMonth: map<YearMonth, seq<Bar>>, order: seq<YearMonth>, key: YearMonth)
    requires key !in byMonth
    ensures Total(byMonth[key := []], order) == Total(byMonth, order)
  {
    if order != [] {
      TotalIgnores(byMonth, order[..|order| - 1], key);
    }
  }

  lemma {:induction false} TotalUpdate(byMonth: map<YearMonth, seq<Bar>>, order: seq<YearMonth>, key: YearMonth, b: Bar)
    requires key in byMonth
    requires forall i, j :: 0 <= i < j < |order| ==> order[i] != order[j]
    ensures Total(byMonth[key := byMonth[key] + [b]], order) == Total(byMonth, order) + if key in order then 1 else 0
  {
    if order != [] {
      TotalUpdate(byMonth, order[..|order| - 1], key, b);
    }
  }
}
