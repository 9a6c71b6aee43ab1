/**
 Reading a point-in-time field back: the chains of the data file are the plain filters of the log,
 and `read_period_data` answers as a scan of the whole log would.
 */
module PitQuery {
  import opened BinaryFile
  import opened Common
  import opened PitDump
  import opened PitLayout

  // ----- chains

  /** Following links from `head` through `data` visits exactly the records `path` and then ends. */
  ghost predicate Chain(data: seq<Byte>, head: U32, path: seq<nat>)
    decreases |path|
  {
    if path == [] then head == NA_INDEX
    else
      && head == RecordOffset(path[0])
      && RecordOffset(path[0]) + 20 <= |data|
      && Chain(data, Unpack(data[RecordOffset(path[0]) + 16..RecordOffset(path[0]) + 20]), path[1..])
  }

  /** The indices at or after `from` that hold key `k`, in ascending order. */
  function Positions(keys: seq<int>, k: int, from: nat): (path: seq<nat>)
    requires from <= |keys|
    ensures forall x :: x in path <==> from <= x < |keys| && keys[x] == k
    ensures forall i :: 0 <= i < |path| ==> from <= path[i]
    ensures forall i, j :: 0 <= i < j < |path| ==> path[i] < path[j]
    decreases |keys| - from
  {
    if from == |keys| then []
    else if keys[from] == k then [from] + Positions(keys, k, from + 1)
    else Positions(keys, k, from + 1)
  }

  /** The rows of one period, in log order. */
  function OfPeriod(rows: seq<Row>, period: U32): seq<Row> {
    if rows == [] then []
    else if rows[0].period == period then [rows[0]] + OfPeriod(rows[1..], period)
    else OfPeriod(rows[1..], period)
  }

  function RowsAt(rows: seq<Row>, path: seq<nat>): (r: seq<Row>)
    requires forall x :: x in path ==> x < |rows|
  {
    seq(|path|, i requires 0 <= i < |path| => assert path[i] in path; rows[path[i]])
  }

  lemma {:induction false} PositionsSkip(keys: seq<int>, k: int, from: nat)
    requires from <= |keys|
    ensures var j := NextIn(keys, k, from);
            Positions(keys, k, from) == if j == |keys| then [] else [j] + Positions(keys, k, j + 1)
    decreases |keys| - from
  {
    if from < |keys| && keys[from] != k {
      PositionsSkip(keys, k, from + 1);
    }
  }

  lemma {:induction false} ChainFrom(keys: seq<int>, rows: seq<Row>, k: int, from: nat, path: seq<nat>)
    requires |keys| == |rows| <= MAX_RECORDS && from <= |rows|
    ensures Chain(DataImage(keys, rows), LinkTo(|rows|, NextIn(keys, k, from)), path) <==> path == Positions(keys, k, from)
    decreases |rows| - from
  {
    hide DataImage, Unpack, NextIn, Positions;
    var j := NextIn(keys, k, from);
    PositionsSkip(keys, k, from);
    if path != [] {
      var head := LinkTo(|rows|, j);
      assert RecordOffset(path[0]) != NA_INDEX;
      if j < |rows| && path[0] == j {
        DataNextAt(keys, rows, j);
        ChainFrom(keys, rows, k, j + 1, path[1..]);
        assert path == [j] + path[1..];
      }
    }
  }

  /**
   On the files of a dump, a path is the chain of slot `k` exactly when it lists the records of that
   slot, each once and in write order.
   */
  lemma ChainOfSlot(l: Layout, slots: nat, rows: seq<Row>, k: nat, path: seq<nat>)
    requires |rows| <= MAX_RECORDS && k < slots
    ensures |IndexImage(l.firstYear, slots, l.Keys(rows))| == SlotOffset(slots)
    ensures var head := Unpack(IndexImage(l.firstYear, slots, l.Keys(rows))[SlotOffset(k)..SlotOffset(k) + 4]);
            Chain(DataImage(l.Keys(rows), rows), head, path) <==> path == Positions(l.Keys(rows), k, 0)
  {
    IndexImageAt(l.firstYear, slots, l.Keys(rows), k);
    ChainFrom(l.Keys(rows), rows, k, 0, path);
  }

  lemma SlotInjective(l: Layout, p: U32, q: U32)
    requires l.WellFormed(p) && l.WellFormed(q)
    ensures 0 <= l.Slot(p)
    ensures l.Slot(p) == l.Slot(q) <==> p == q
  {
  }

  /** No other period shares the slot of `p`. */
  ghost predicate SlotOfItsOwn(l: Layout, rows: seq<Row>, p: U32) {
    forall r :: r in rows && l.Slot(r.period) == l.Slot(p) ==> r.period == p
  }

  /** Whatever the quarters, the chain of a period's slot is the plain filter of the log exactly when no other period shares it. */
  lemma ChainIsFilterIff(l: Layout, rows: seq<Row>, p: U32)
    ensures RowsAt(rows, Positions(l.Keys(rows), l.Slot(p), 0)) == OfPeriod(rows, p) <==> SlotOfItsOwn(l, rows, p)
  {
    hide Layout.Slot, Layout.Keys;
    var path := Positions(l.Keys(rows), l.Slot(p), 0);
    if RowsAt(rows, path) == OfPeriod(rows, p) {
      forall r | r in rows && l.Slot(r.period) == l.Slot(p)
        ensures r.period == p
      {
        var i :| 0 <= i < |rows| && rows[i] == r;
        l.KeysAt(rows, i);
        var j :| 0 <= j < |path| && path[j] == i;
        assert RowsAt(rows, path)[j] == r;
        OfPeriodOnly(rows, p, r);
      }
    }
    if SlotOfItsOwn(l, rows, p) {
      FilterFrom(l, rows, p, 0);
      assert rows[0..] == rows;
    }
  }

  lemma {:induction false} OfPeriodOnly(rows: seq<Row>, p: U32, r: Row)
    requires r in OfPeriod(rows, p)
    ensures r.period == p
  {
    if rows[0].period != p || r != rows[0] {
      OfPeriodOnly(rows[1..], p, r);
    }
  }

  /** So it is, for well-formed periods. */
  lemma ChainIsFilter(l: Layout, rows: seq<Row>, p: U32)
    requires l.WellFormed(p)
    requires forall r :: r in rows ==> l.WellFormed(r.period)
    ensures RowsAt(rows, Positions(l.Keys(rows), l.Slot(p), 0)) == OfPeriod(rows, p)
  {
    hide Layout.Slot, Layout.WellFormed, Layout.Keys, RowsAt, OfPeriod;
    forall r | r in rows && l.Slot(r.period) == l.Slot(p)
      ensures r.period == p
    {
      SlotInjective(l, r.period, p);
    }
    ChainIsFilterIff(l, rows, p);
  }

  lemma RowsAtPush(rows: seq<Row>, from: nat, path: seq<nat>)
    requires from < |rows| && forall x :: x in path ==> x < |rows|
    ensures forall x :: x in [from] + path ==> x < |rows|
    ensures RowsAt(rows, [from] + path) == [rows[from]] + RowsAt(rows, path)
  {
  }

  lemma OfPeriodStep(rows: seq<Row>, p: U32, from: nat)
    requires from < |rows|
    ensures OfPeriod(rows[from..], p) == (if rows[from].period == p then [rows[from]] else []) + OfPeriod(rows[from + 1..], p)
  {
    assert rows[from..][1..] == rows[from + 1..];
  }

  lemma {:induction false} FilterFrom(l: Layout, rows: seq<Row>, p: U32, from: nat)
    requires from <= |rows| && SlotOfItsOwn(l, rows, p)
    ensures RowsAt(rows, Positions(l.Keys(rows), l.Slot(p), from)) == OfPeriod(rows[from..], p)
    decreases |rows| - from
  {
    hide Layout.Slot, Layout.Keys, RowsAt, OfPeriod;
    if from == |rows| {
      FilterNone(l, rows, p);
    } else {
      assert rows[from] in rows;
      l.KeysAt(rows, from);
      FilterFrom(l, rows, p, from + 1);
      OfPeriodStep(rows, p, from);
      RowsAtPush(rows, from, Positions(l.Keys(rows), l.Slot(p), from + 1));
    }
  }

  lemma FilterNone(l: Layout, rows: seq<Row>, p: U32)
    ensures RowsAt(rows, Positions(l.Keys(rows), l.Slot(p), |rows|)) == OfPeriod(rows[|rows|..], p)
  {
  }

  /** Every record is on the chain of its own period and on no other. */
  lemma ChainsPartition(l: Layout, rows: seq<Row>, i: nat, p: U32)
    requires i < |rows| && l.WellFormed(rows[i].period) && l.WellFormed(p)
    ensures i in Positions(l.Keys(rows), l.Slot(p), 0) <==> p == rows[i].period
  {
    l.KeysAt(rows, i);
    SlotInjective(l, rows[i].period, p);
  }

  /** Outside quarters 1 to 4 two different periods share a slot. */
  lemma QuarterFiveAliases(l: Layout, year: nat)
    requires l.quarterly && l.firstYear <= year < 42_000_000
    ensures l.Slot(year * 100 + 5) == l.Slot((year + 1) * 100 + 1)
  {
    assert (year * 100 + 5) / 100 == year && (year * 100 + 5) % 100 == 5;
    assert ((year + 1) * 100 + 1) / 100 == year + 1 && ((year + 1) * 100 + 1) % 100 == 1;
  }

  /**
   Quarter 0 of the first year takes the year for a link.  When the year is the offset of a record, the walk follows the
   rest of that record's chain, and the row becomes a revision of that record's slot instead of its own.
   */
  lemma QuarterZeroJoins(firstYear: U32, slots: nat, keys: seq<int>, log: seq<Row>, r: Row, j: nat, tail: nat, path: seq<nat>)
    requires |keys| == |log| < MAX_RECORDS && j <= tail < |log| && firstYear == RecordOffset(j)
    requires keys[tail] == keys[j] && NextIn(keys, keys[j], tail + 1) == |log|
    ensures Chain(DataImage(keys, log), firstYear, path) <==> path == Positions(keys, keys[j], j)
    ensures var linked := Overwrite(DataImage(keys, log), RecordOffset(tail) + 16, Pack(RecordOffset(|log|)));
            Overwrite(linked, RecordOffset(|log|), EncodeRow(r, NA_INDEX)) == DataImage(keys + [keys[j]], log + [r])
    ensures IndexImage(firstYear, slots, keys) == IndexImage(firstYear, slots, keys + [keys[j]])
  {
    hide DataImage, IndexImage, Overwrite, Pack, EncodeRow, Unpack;
    ChainFrom(keys, log, keys[j], j, path);
    RelinkTail(keys, log, tail);
    PublishRevisionData(keys, log, r, keys[j], tail);
    PublishRevisionIndex(firstYear, slots, keys, keys[j], tail);
  }

  /** Every link of a data file is empty, or a whole record strictly further on. */
  lemma LinksPointForward(keys: seq<int>, rows: seq<Row>, i: nat)
    requires |keys| == |rows| <= MAX_RECORDS && i < |rows|
    ensures |DataImage(keys, rows)| == 20 * |rows|
    ensures var next := Unpack(DataImage(keys, rows)[20 * i + 16..20 * i + 20]);
            next == NA_INDEX || (next % 20 == 0 && 20 * i < next < |DataImage(keys, rows)|)
    ensures NA_INDEX % 20 != 0
  {
    hide DataImage, Unpack;
    DataNextAt(keys, rows, i);
  }

  // ----- queries

  /** Among the first `n` rows, the last one with key `k` dated at or before `t`. */
  function LastAsOf(rows: seq<Row>, keys: seq<int>, k: int, t: int, n: nat): (r: Option<nat>)
    requires n <= |rows| == |keys|
    ensures r.Some? ==> r.value < n && keys[r.value] == k && rows[r.value].date <= t
    ensures forall i :: (if r.Some? then r.value else -1) < i < n && keys[i] == k ==> rows[i].date > t
  {
    if n == 0 then None
    else if keys[n - 1] == k && rows[n - 1].date <= t then Some(n - 1)
    else LastAsOf(rows, keys, k, t, n - 1)
  }

  ghost predicate SortedByDate(rows: seq<Row>) {
    forall i, j :: 0 <= i < j < |rows| ==> rows[i].date <= rows[j].date
  }

  datatype Reading = Reading(value: Float64, cursor: U32)

  /** What reading slot `k` at date `t` should give: the last revision by then, and where it is. */
  function Answer(rows: seq<Row>, keys: seq<int>, k: int, t: int): Reading
    requires |rows| == |keys| <= MAX_RECORDS
  {
    match LastAsOf(rows, keys, k, t, |rows|)
    case None => Reading(NAN, SlotLink(keys, k))
    case Some(i) => Reading(rows[i].value, RecordOffset(i))
  }

  /** The slot that indexing an array of `n` words by `o` reaches: negative indices count from the end. */
  function ArrayIndex(o: int, n: nat): (r: Option<nat>)
    ensures r.Some? ==> r.value < n
  {
    if 0 <= o < n then Some(o) else if 0 <= n + o < n then Some(n + o) else None
  }

  lemma LaterDates(rows: seq<Row>, j: nat, t: int)
    requires SortedByDate(rows) && j < |rows| && rows[j].date > t
    ensures forall i :: j <= i < |rows| ==> rows[i].date > t
  {
  }

  lemma AnswerFound(rows: seq<Row>, keys: seq<int>, k: int, t: int, at: nat, found: bool)
    requires at <= |rows| == |keys|
    requires forall i :: at <= i < |rows| && keys[i] == k ==> rows[i].date > t
    requires if found then at > 0 && keys[at - 1] == k && rows[at - 1].date <= t else at == 0
    ensures LastAsOf(rows, keys, k, t, |rows|) == if found then Some(at - 1) else None
  {
  }

  /** The walk from `from` has accepted the last record of slot `k` before `at`, or none yet. */
  ghost predicate Walked(rows: seq<Row>, keys: seq<int>, k: int, t: int, from: nat, at: nat, found: bool, value: Float64, cursor: U32)
    requires |keys| == |rows| <= MAX_RECORDS && from <= |rows| && at <= |rows|
  {
    if found then at > 0 && keys[at - 1] == k && rows[at - 1].date <= t && value == rows[at - 1].value && cursor == RecordOffset(at - 1)
    else at == from && value == NAN && cursor == LinkTo(|rows|, NextIn(keys, k, from))
  }

  lemma WalkStart(rows: seq<Row>, keys: seq<int>, k: int, t: int, from: nat)
    requires |keys| == |rows| <= MAX_RECORDS && from <= |rows|
    ensures Walked(rows, keys, k, t, from, from, false, NAN, LinkTo(|rows|, NextIn(keys, k, from)))
  {
  }

  lemma WalkStep(rows: seq<Row>, keys: seq<int>, k: int, t: int, from: nat, at: nat, found: bool, value: Float64, cursor: U32)
    requires |keys| == |rows| <= MAX_RECORDS && from <= |rows| && at <= |rows|
    requires NextIn(keys, k, at) < |rows| && rows[NextIn(keys, k, at)].date <= t
    ensures var j := NextIn(keys, k, at);
            Walked(rows, keys, k, t, from, j + 1, true, rows[j].value, LinkTo(|rows|, j))
  {
  }

  lemma WalkEnd(rows: seq<Row>, keys: seq<int>, k: int, t: int, from: nat, at: nat, found: bool, value: Float64, cursor: U32)
    requires |keys| == |rows| <= MAX_RECORDS && from <= |rows| && at <= |rows| && SortedByDate(rows)
    requires Walked(rows, keys, k, t, from, at, found, value, cursor)
    requires from == 0 || (from < |rows| && keys[from] == k && rows[from].date <= t)
    requires NextIn(keys, k, at) == |rows| || rows[NextIn(keys, k, at)].date > t
    ensures Reading(value, cursor) == Answer(rows, keys, k, t)
  {
    hide NextIn, LastAsOf, SortedByDate;
    if NextIn(keys, k, at) < |rows| {
      LaterDates(rows, NextIn(keys, k, at), t);
    }
    AnswerFound(rows, keys, k, t, at, found);
  }

  /** Walks the chain from the link `start` up to the last record dated at or before `t`. */
  method WalkUntil(data: File, start: U32, t: U32, ghost keys: seq<int>, ghost rows: seq<Row>, ghost k: int, ghost from: nat)
    returns (r: Reading)
    requires |keys| == |rows| <= MAX_RECORDS && from <= |rows|
    requires data.bytes == DataImage(keys, rows) && SortedByDate(rows)
    requires start == LinkTo(|rows|, NextIn(keys, k, from))
    requires from == 0 || (from < |rows| && keys[from] == k && rows[from].date <= t)
    modifies data`pos
    ensures r == Answer(rows, keys, k, t)
  {
    hide DataImage, DecodeRow, Walked, NextIn, Answer;
    var next, prevValue, prevNext := start, NAN, start;
    ghost var at, found := from, false;
    WalkStart(rows, keys, k, t, from);
    while next != NA_INDEX
      invariant at <= |rows| && next == LinkTo(|rows|, NextIn(keys, k, at))
      invariant Walked(rows, keys, k, t, from, at, found, prevValue, prevNext)
      decreases |rows| - at
    {
      ghost var j := NextIn(keys, k, at);
      data.Seek(next);
      var raw := data.Read(20);
      DataImageAt(keys, rows, j);
      var (row, newNext) := DecodeRow(raw);
      if row.date > t {
        break;
      }
      WalkStep(rows, keys, k, t, from, at, found, prevValue, prevNext);
      prevNext := next;
      next := newNext;
      prevValue := row.value;
      at, found := j + 1, true;
    }
    WalkEnd(rows, keys, k, t, from, at, found, prevValue, prevNext);
    r := Reading(prevValue, prevNext);
  }

  /**
   `read_period_data` on the files of a dump of date-sorted rows.  From the index it answers for the slot
   the period's offset reaches; resumed from the cursor of an earlier date it gives the same answer as
   starting over.
   */
  method ReadPeriodData(dataBytes: seq<Byte>, indexBytes: seq<Byte>, period: U32, t: U32, quarterly: bool, last: Option<U32>,
                        ghost firstYear: U32, ghost slots: nat, ghost rows: seq<Row>)
    returns (r: Option<Reading>)
    requires |rows| <= MAX_RECORDS && SortedByDate(rows)
    requires dataBytes == DataImage(Layout(firstYear, quarterly).Keys(rows), rows)
    requires indexBytes == IndexImage(firstYear, slots, Layout(firstYear, quarterly).Keys(rows))
    requires last.Some? ==>
               var l := Layout(firstYear, quarterly);
               exists t' :: t' <= t && last.value == Answer(rows, l.Keys(rows), l.Slot(period), t').cursor
    ensures var l := Layout(firstYear, quarterly);
            r == if last.Some? then Some(Answer(rows, l.Keys(rows), l.Slot(period), t))
                 else match ArrayIndex(l.Slot(period), slots)
                      case None => None
                      case Some(k) => Some(Answer(rows, l.Keys(rows), k, t))
  {
    hide DataImage, IndexImage, Unpack;
    ghost var l := Layout(firstYear, quarterly);
    ghost var keys := l.Keys(rows);
    var fd := new File(dataBytes);
    if last == None {
      IndexImageHeader(firstYear, slots, keys);
      var year := Unpack(indexBytes[..4]);
      var offset := ArrayIndex(Layout(year, quarterly).Slot(period), |indexBytes| / 4 - 1);
      if offset == None {
        return None;
      }
      var k := offset.value;
      IndexImageAt(firstYear, slots, keys, k);
      var head := Unpack(indexBytes[SlotOffset(k)..SlotOffset(k) + 4]);
      var reading := WalkUntil(fd, head, t, keys, rows, k, 0);
      return Some(reading);
    } else {
      ghost var k := l.Slot(period);
      ghost var t' :| t' <= t && last.value == Answer(rows, keys, k, t').cursor;
      ghost var earlier := LastAsOf(rows, keys, k, t', |rows|);
      var reading := WalkUntil(fd, last.value, t, keys, rows, k, if earlier.Some? then earlier.value else 0);
      return Some(reading);
    }
  }

  /** The last row of a period dated at or before `t`, found by scanning the whole log. */
  function LastOfPeriod(rows: seq<Row>, p: U32, t: int, n: nat): (r: Option<nat>)
    requires n <= |rows|
    ensures r.Some? ==> r.value < n && rows[r.value].period == p && rows[r.value].date <= t
    ensures forall i :: (if r.Some? then r.value else -1) < i < n && rows[i].period == p ==> rows[i].date > t
  {
    if n == 0 then None
    else if rows[n - 1].period == p && rows[n - 1].date <= t then Some(n - 1)
    else LastOfPeriod(rows, p, t, n - 1)
  }

  /** From the first year on, the slot's answer is the period's answer. */
  lemma {:induction false} AnswerIsLastOfPeriod(l: Layout, rows: seq<Row>, p: U32, t: int, n: nat)
    requires n <= |rows| && l.WellFormed(p)
    requires forall r :: r in rows ==> l.WellFormed(r.period)
    ensures LastAsOf(rows, l.Keys(rows), l.Slot(p), t, n) == LastOfPeriod(rows, p, t, n)
  {
    if n > 0 {
      hide Layout.Slot, Layout.Keys, Layout.WellFormed;
      AnswerIsLastOfPeriod(l, rows, p, t, n - 1);
      assert rows[n - 1] in rows;
      l.KeysAt(rows, n - 1);
      SlotInjective(l, rows[n - 1].period, p);
    }
  }

  lemma {:induction false} NothingBeforeFirstYear(l: Layout, rows: seq<Row>, p: U32, t: int, n: nat)
    requires n <= |rows| && l.Slot(p) < 0
    requires forall r :: r in rows ==> l.WellFormed(r.period)
    ensures LastOfPeriod(rows, p, t, n) == None
  {
    if n > 0 {
      assert rows[n - 1] in rows;
      NothingBeforeFirstYear(l, rows, p, t, n - 1);
    }
  }

  /** The well-formed period of a slot. */
  function PeriodAt(l: Layout, k: int): int {
    if l.quarterly then (l.firstYear + k / 4) * 100 + k % 4 + 1 else l.firstYear + k
  }

  lemma PeriodOfSlot(l: Layout, p: U32, k: int)
    requires l.WellFormed(p)
    ensures l.Slot(p) == k <==> p == PeriodAt(l, k)
  {
  }

  /** A slot has no answer exactly when no row of its period is dated by then. */
  lemma NoAnswerYet(l: Layout, rows: seq<Row>, k: nat, t: int)
    requires forall r :: r in rows ==> l.WellFormed(r.period)
    ensures LastAsOf(rows, l.Keys(rows), k, t, |rows|) == None <==>
            forall r :: r in rows && r.period == PeriodAt(l, k) ==> r.date > t
  {
    hide Layout.Slot, Layout.WellFormed, PeriodAt, LastAsOf;
    var keys := l.Keys(rows);
    forall i | 0 <= i < |rows|
      ensures rows[i].period == PeriodAt(l, k) <==> keys[i] == k
    {
      assert rows[i] in rows;
      l.KeysAt(rows, i);
      PeriodOfSlot(l, rows[i].period, k);
    }
    var last := LastAsOf(rows, keys, k, t, |rows|);
    if last.Some? {
      assert rows[last.value] in rows;
    }
  }

  /** Slot `k` answers at date `t` with the row that a scan for period `p` finds. */
  predicate FindsRow(l: Layout, rows: seq<Row>, p: U32, k: int, t: int) {
    LastAsOf(rows, l.Keys(rows), k, t, |rows|) == LastOfPeriod(rows, p, t, |rows|)
  }

  /**
   Which record a read from the index finds, for a period with a proper quarter: the right one exactly when the period
   is not before the first year, or no row of the period its negative offset wraps to is published by then.
   */
  lemma WrappedRead(l: Layout, slots: nat, rows: seq<Row>, p: U32, t: int, k: nat)
    requires l.quarterly ==> 1 <= p % 100 <= 4
    requires forall r :: r in rows ==> l.WellFormed(r.period)
    requires ArrayIndex(l.Slot(p), slots) == Some(k)
    ensures FindsRow(l, rows, p, k, t) <==>
            || l.firstYear <= YearOf(p, l.quarterly)
            || forall r :: r in rows && r.period == PeriodAt(l, l.Slot(p) + slots) ==> r.date > t
  {
    if l.WellFormed(p) {
      AnswerIsLastOfPeriod(l, rows, p, t, |rows|);
    } else {
      NothingBeforeFirstYear(l, rows, p, t, |rows|);
      NoAnswerYet(l, rows, k, t);
    }
  }

  /** Such reads are right at every date exactly when the period is not before the first year, or nothing has the other period. */
  lemma WrappedReads(l: Layout, slots: nat, rows: seq<Row>, p: U32, k: nat)
    requires l.quarterly ==> 1 <= p % 100 <= 4
    requires forall r :: r in rows ==> l.WellFormed(r.period)
    requires ArrayIndex(l.Slot(p), slots) == Some(k)
    ensures (forall t :: FindsRow(l, rows, p, k, t)) <==>
            || l.firstYear <= YearOf(p, l.quarterly)
            || forall r :: r in rows ==> r.period != PeriodAt(l, l.Slot(p) + slots)
  {
    hide Layout.Slot, Layout.WellFormed, Layout.Keys, PeriodAt, FindsRow, ArrayIndex, YearOf;
    var q := PeriodAt(l, l.Slot(p) + slots);
    forall t: int
      ensures FindsRow(l, rows, p, k, t) <==>
              l.firstYear <= YearOf(p, l.quarterly) || forall r :: r in rows && r.period == q ==> r.date > t
    {
      WrappedRead(l, slots, rows, p, t, k);
    }
    if r :| r in rows && r.period == q {
      assert FindsRow(l, rows, p, k, r.date) ==> l.firstYear <= YearOf(p, l.quarterly);
    }
  }

  /** The cursor that comes with an answer: where the row found is, or where the first row of the period is, if any. */
  ghost predicate PointsAt(rows: seq<Row>, p: U32, found: Option<nat>, cursor: U32) {
    if found.Some? then cursor == 20 * found.value
    else if exists r :: r in rows && r.period == p then
      exists i :: 0 <= i < |rows| && rows[i].period == p && cursor == 20 * i && forall j :: 0 <= j < i ==> rows[j].period != p
    else cursor == 0xFFFF_FFFF
  }

  lemma AnswerPoints(l: Layout, rows: seq<Row>, p: U32, t: int)
    requires |rows| <= MAX_RECORDS && l.WellFormed(p)
    requires forall r :: r in rows ==> l.WellFormed(r.period)
    ensures PointsAt(rows, p, LastOfPeriod(rows, p, t, |rows|), Answer(rows, l.Keys(rows), l.Slot(p), t).cursor)
  {
    AnswerIsLastOfPeriod(l, rows, p, t, |rows|);
    hide Layout.Slot, Layout.WellFormed, Layout.Keys, LastAsOf, LastOfPeriod, NextIn;
    var keys, k := l.Keys(rows), l.Slot(p);
    forall i | 0 <= i < |rows|
      ensures rows[i].period == p <==> keys[i] == k
    {
      assert rows[i] in rows;
      l.KeysAt(rows, i);
      SlotInjective(l, rows[i].period, p);
    }
    var first := NextIn(keys, k, 0);
    if first < |rows| {
      assert rows[first] in rows && rows[first].period == p;
    }
  }

  /**
   Dumping date-sorted, well-formed rows and reading a period of the dumped years back at date `t` gives the value a scan of
   the rows finds: the last revision published by then, or NaN.  It fails past the last dumped year.
   */
  method DumpThenRead(rows: seq<Row>, quarterly: bool, p: U32, t: U32) returns (r: Option<Reading>)
    requires WellFormedRows(rows, quarterly) && |rows| <= MAX_RECORDS && SortedByDate(rows)
    requires FreshLayout(rows, quarterly).WellFormed(p)
    ensures r.Some? <==> exists x :: x in rows && YearOf(p, quarterly) <= YearOf(x.period, quarterly)
    ensures r.Some? ==> r.value.value == match LastOfPeriod(rows, p, t, |rows|)
                                         case None => NAN
                                         case Some(i) => rows[i].value
    ensures r.Some? ==> PointsAt(rows, p, LastOfPeriod(rows, p, t, |rows|), r.value.cursor)
  {
    hide DataImage, IndexImage, Layout.Slot, PointsAt, Spans, YearOf;
    var files, done := DumpField(rows, quarterly);
    var pit := files.value;
    ghost var l := pit.layout;
    assert pit.log == rows;
    r := ReadPeriodData(pit.data.bytes, pit.index.bytes, p, t, quarterly, None, l.firstYear, pit.slots, rows);
    AnswerIsLastOfPeriod(l, rows, p, t, |rows|);
    AnswerPoints(l, rows, p, t);
    SlotInjective(l, p, p);
    SlotWithinSpan(rows, quarterly, pit.slots, p);
  }

  lemma SlotWithinSpan(rows: seq<Row>, quarterly: bool, slots: nat, p: U32)
    requires rows != [] && FreshLayout(rows, quarterly).WellFormed(p)
    requires Spans(rows, quarterly, FreshLayout(rows, quarterly).firstYear, slots)
    ensures FreshLayout(rows, quarterly).Slot(p) < slots <==>
            exists x :: x in rows && YearOf(p, quarterly) <= YearOf(x.period, quarterly)
  {
    hide FreshLayout;
    var lo, hi :| SpansFrom(rows, quarterly, FreshLayout(rows, quarterly).firstYear, slots, lo, hi);
    LayoutQuarterly(rows, quarterly);
    assert FreshLayout(rows, quarterly).Slot(p) < slots <==> YearOf(p, quarterly) <= YearOf(hi.period, quarterly);
  }

  lemma LayoutQuarterly(rows: seq<Row>, quarterly: bool)
    requires rows != []
    ensures FreshLayout(rows, quarterly).quarterly == quarterly
  {
  }
}
