/** Bars in time, and the abstract series a partitioned store stands for. */
module TimeSeries {
  import opened Common

  datatype Bar = Bar(timestamp: int, open: real, high: real, low: real, close: real, volume: real)

  /** The first bar written for a timestamp. */
  function Lookup(bars: seq<Bar>, t: int): (r: Option<Bar>)
    ensures r.Some? ==> r.value.timestamp == t
  {
    if bars == [] then None
    else if bars[0].timestamp == t then Some(bars[0])
    else Lookup(bars[1..], t)
  }

  lemma {:induction false} LookupNone(bars: seq<Bar>, t: int)
    ensures Lookup(bars, t) == None <==> forall i :: 0 <= i < |bars| ==> bars[i].timestamp != t
  {
    if bars != [] && bars[0].timestamp != t {
      LookupNone(bars[1..], t);
      if Lookup(bars, t) == None {
        forall i | 0 <= i < |bars|
          ensures bars[i].timestamp != t
        {
          assert i > 0 ==> bars[i] == bars[1..][i - 1];
        }
      } else {
        var j :| 0 <= j < |bars[1..]| && bars[1..][j].timestamp == t;
        assert bars[j + 1].timestamp == t;
      }
    }
  }

  ghost predicate Increasing(bars: seq<Bar>) {
    forall i, j :: 0 <= i < j < |bars| ==> bars[i].timestamp < bars[j].timestamp
  }

  /** Two sequences stand for the same series when they agree on the first bar of every timestamp. */
  ghost predicate SameSeries(a: seq<Bar>, b: seq<Bar>) {
    forall t :: Lookup(a, t) == Lookup(b, t)
  }

  lemma SameAt(a: seq<Bar>, b: seq<Bar>, t: int)
    requires SameSeries(a, b)
    ensures Lookup(a, t) == Lookup(b, t)
  {
  }

  lemma IncreasingCons(x: Bar, rest: seq<Bar>)
    ensures Increasing([x] + rest) <==> Increasing(rest) && (rest == [] || x.timestamp < rest[0].timestamp)
  {
    var all := [x] + rest;
    if Increasing(all) {
      forall i, j | 0 <= i < j < |rest|
        ensures rest[i].timestamp < rest[j].timestamp
      {
        assert all[i + 1].timestamp < all[j + 1].timestamp;
      }
      assert rest != [] ==> all[0].timestamp < all[1].timestamp;
    }
  }

  lemma {:induction false} LookupAppend(a: seq<Bar>, b: seq<Bar>, t: int)
    ensures Lookup(a + b, t) == if Lookup(a, t).Some? then Lookup(a, t) else Lookup(b, t)
  {
    if a == [] {
      assert a + b == b;
    } else {
      assert (a + b)[1..] == a[1..] + b;
      LookupAppend(a[1..], b, t);
    }
  }

  /** A strictly increasing sequence is determined by the series it stands for. */
  lemma {:induction false} SeriesUnique(a: seq<Bar>, b: seq<Bar>)
    requires Increasing(a) && Increasing(b) && SameSeries(a, b)
    ensures a == b
  {
    if a == [] {
      if b != [] {
        SameAt(a, b, b[0].timestamp);
        assert false;
      }
    } else {
      SameAt(a, b, a[0].timestamp);
      if b == [] {
        assert false;
      }
      SameAt(a, b, b[0].timestamp);
      FirstIsLeast(a, b[0].timestamp);
      FirstIsLeast(b, a[0].timestamp);
      forall t
        ensures Lookup(a[1..], t) == Lookup(b[1..], t)
      {
        SameAt(a, b, t);
        FirstIsLeast(a, t);
        FirstIsLeast(b, t);
      }
      SeriesUnique(a[1..], b[1..]);
    }
  }

  lemma FirstIsLeast(a: seq<Bar>, t: int)
    requires Increasing(a) && a != []
    ensures Lookup(a, t).Some? ==> a[0].timestamp <= t
    ensures t == a[0].timestamp ==> Lookup(a[1..], t) == None
  {
    LookupNone(a, t);
    LookupNone(a[1..], t);
  }

  // ----- merging as the store does: drop later duplicates, then sort by time

  function DropDuplicates(bars: seq<Bar>): (r: seq<Bar>)
    ensures forall i, j :: 0 <= i < j < |r| ==> r[i].timestamp != r[j].timestamp
  {
    if bars == [] then []
    else
      var front, last := DropDuplicates(bars[..|bars| - 1]), bars[|bars| - 1];
      LookupNone(front, last.timestamp);
      if Lookup(front, last.timestamp).Some? then front else front + [last]
  }

  lemma {:induction false} DropDuplicatesSeries(bars: seq<Bar>, t: int)
    ensures Lookup(DropDuplicates(bars), t) == Lookup(bars, t)
  {
    if bars != [] {
      var rest, last := bars[..|bars| - 1], bars[|bars| - 1];
      assert bars == rest + [last];
      DropDuplicatesSeries(rest, t);
      LookupAppend(rest, [last], t);
      LookupAppend(DropDuplicates(rest), [last], t);
    }
  }

  function Insert(b: Bar, bars: seq<Bar>): seq<Bar> {
    if bars == [] || b.timestamp <= bars[0].timestamp then [b] + bars
    else [bars[0]] + Insert(b, bars[1..])
  }

  function SortByTime(bars: seq<Bar>): seq<Bar> {
    if bars == [] then [] else Insert(bars[0], SortByTime(bars[1..]))
  }

  lemma {:induction false} InsertIncreasing(b: Bar, bars: seq<Bar>)
    requires Increasing(bars) && Lookup(bars, b.timestamp) == None
    ensures Increasing(Insert(b, bars))
    ensures forall t :: Lookup(Insert(b, bars), t) == if t == b.timestamp then Some(b) else Lookup(bars, t)
  {
    hide Increasing;
    if bars == [] || b.timestamp <= bars[0].timestamp {
      IncreasingCons(b, bars);
    } else {
      assert bars == [bars[0]] + bars[1..];
      IncreasingCons(bars[0], bars[1..]);
      InsertIncreasing(b, bars[1..]);
      IncreasingCons(bars[0], Insert(b, bars[1..]));
    }
  }

  lemma {:induction false} SortIncreasing(bars: seq<Bar>)
    requires forall i, j :: 0 <= i < j < |bars| ==> bars[i].timestamp != bars[j].timestamp
    ensures Increasing(SortByTime(bars)) && SameSeries(SortByTime(bars), bars)
  {
    if bars != [] {
      SortIncreasing(bars[1..]);
      SameAt(SortByTime(bars[1..]), bars[1..], bars[0].timestamp);
      LookupNone(bars[1..], bars[0].timestamp);
      InsertIncreasing(bars[0], SortByTime(bars[1..]));
    }
  }

  function Canonical(bars: seq<Bar>): seq<Bar> {
    SortByTime(DropDuplicates(bars))
  }

  lemma CanonicalSpec(bars: seq<Bar>)
    ensures Increasing(Canonical(bars)) && SameSeries(Canonical(bars), bars)
  {
    SortIncreasing(DropDuplicates(bars));
    forall t
      ensures Lookup(Canonical(bars), t) == Lookup(bars, t)
    {
      DropDuplicatesSeries(bars, t);
    }
  }

  /** Canonicalising early makes no difference. */
  lemma CanonicalAbsorbs(a: seq<Bar>, b: seq<Bar>)
    ensures Canonical(Canonical(a) + b) == Canonical(a + b)
  {
    hide Canonical;
    CanonicalSpec(a);
    CanonicalSpec(a + b);
    CanonicalSpec(Canonical(a) + b);
    forall t
      ensures Lookup(Canonical(Canonical(a) + b), t) == Lookup(Canonical(a + b), t)
    {
      LookupAppend(Canonical(a), b, t);
      LookupAppend(a, b, t);
    }
    SeriesUnique(Canonical(Canonical(a) + b), Canonical(a + b));
  }

  // ----- restriction to a closed time range

  function Range(bars: seq<Bar>, s: int, e: int): seq<Bar> {
    if bars == [] then []
    else if s <= bars[0].timestamp <= e then [bars[0]] + Range(bars[1..], s, e)
    else Range(bars[1..], s, e)
  }

  /** A range is cut bar by bar, in their order. */
  lemma {:induction false} RangeAppend(a: seq<Bar>, b: seq<Bar>, s: int, e: int)
    ensures Range(a + b, s, e) == Range(a, s, e) + Range(b, s, e)
  {
    if a == [] {
      assert a + b == b;
    } else {
      assert (a + b)[1..] == a[1..] + b;
      RangeAppend(a[1..], b, s, e);
    }
  }

  lemma RangeOne(b: Bar, s: int, e: int)
    ensures Range([b], s, e) == if s <= b.timestamp <= e then [b] else []
  {
    assert [b][1..] == [];
  }

  lemma {:induction false} RangeBar(bars: seq<Bar>, s: int, e: int, b: Bar)
    requires b in Range(bars, s, e)
    ensures b in bars && s <= b.timestamp <= e
  {
    if b in Range(bars[1..], s, e) {
      RangeBar(bars[1..], s, e, b);
    }
  }

  /** The bar found for a timestamp is the first of them. */
  lemma {:induction false} LookupFirst(bars: seq<Bar>, i: nat)
    requires i < |bars| && forall j :: 0 <= j < i ==> bars[j].timestamp != bars[i].timestamp
    ensures Lookup(bars, bars[i].timestamp) == Some(bars[i])
  {
    if i > 0 {
      assert bars[0].timestamp != bars[i].timestamp && bars[1..][i - 1] == bars[i];
      assert forall j :: 0 <= j < i - 1 ==> bars[1..][j] == bars[j + 1];
      LookupFirst(bars[1..], i - 1);
    }
  }

  lemma {:induction false} RangeLookup(bars: seq<Bar>, s: int, e: int, t: int)
    ensures Lookup(Range(bars, s, e), t) == if s <= t <= e then Lookup(bars, t) else None
  {
    if bars != [] {
      RangeLookup(bars[1..], s, e, t);
    }
  }

  lemma {:induction false} RangeIncreasing(bars: seq<Bar>, s: int, e: int)
    requires Increasing(bars)
    ensures Increasing(Range(bars, s, e))
    ensures Range(bars, s, e) != [] ==> bars != [] && bars[0].timestamp <= Range(bars, s, e)[0].timestamp
  {
    if bars != [] {
      assert bars == [bars[0]] + bars[1..];
      IncreasingCons(bars[0], bars[1..]);
      RangeIncreasing(bars[1..], s, e);
      IncreasingCons(bars[0], Range(bars[1..], s, e));
    }
  }

  /** How often a timestamp occurs. */
  function Count(bars: seq<Bar>, t: int): nat {
    if bars == [] then 0 else (if bars[0].timestamp == t then 1 else 0) + Count(bars[1..], t)
  }

  /** How often a bar occurs. */
  function Copies(bars: seq<Bar>, b: Bar): nat {
    if bars == [] then 0 else (if bars[0] == b then 1 else 0) + Copies(bars[1..], b)
  }

  lemma {:induction false} CopiesAppend(a: seq<Bar>, c: seq<Bar>, b: Bar)
    ensures Copies(a + c, b) == Copies(a, b) + Copies(c, b)
  {
    if a == [] {
      assert a + c == c;
    } else {
      assert (a + c)[1..] == a[1..] + c;
      CopiesAppend(a[1..], c, b);
    }
  }

  lemma {:induction false} RangeCopies(bars: seq<Bar>, s: int, e: int, b: Bar)
    ensures Copies(Range(bars, s, e), b) == if s <= b.timestamp <= e then Copies(bars, b) else 0
  {
    if bars != [] {
      RangeCopies(bars[1..], s, e, b);
    }
  }

  lemma {:induction false} NoCopies(bars: seq<Bar>, b: Bar)
    requires Lookup(bars, b.timestamp) == None
    ensures Copies(bars, b) == 0
  {
    if bars != [] {
      NoCopies(bars[1..], b);
    }
  }

  /** An increasing sequence holds exactly the bars it stands for, each once. */
  lemma {:induction false} IncreasingCopies(bars: seq<Bar>, b: Bar)
    requires Increasing(bars)
    ensures Copies(bars, b) == if Lookup(bars, b.timestamp) == Some(b) then 1 else 0
  {
    if bars != [] {
      IncreasingCopies(bars[1..], b);
      FirstIsLeast(bars, b.timestamp);
    }
  }

  // ----- stepping through a range in windows that share their boundary points

  datatype Window = Window(start: int, end: int)

  function Min(a: int, b: int): int { if a < b then a else b }

  function Windows(cur: int, end: int, step: int): seq<Window>
    requires step > 0
    decreases end - cur
  {
    if cur >= end then [] else [Window(cur, Min(cur + step, end))] + Windows(Min(cur + step, end), end, step)
  }

  /** The windows lie end to end from `cur` to `end`, all of them `step` long but the last, which may be shorter. */
  ghost predicate EndToEnd(ws: seq<Window>, cur: int, end: int, step: int) {
    && (ws == [] <==> cur >= end)
    && (ws != [] ==> ws[0].start == cur && ws[|ws| - 1].end == end)
    && (forall i :: 0 < i < |ws| ==> ws[i].start == ws[i - 1].end)
    && (forall i :: 0 <= i < |ws| ==> ws[i].start < ws[i].end <= ws[i].start + step)
    && (forall i :: 0 <= i < |ws| - 1 ==> ws[i].end == ws[i].start + step)
  }

  lemma {:induction false} WindowsEndToEnd(cur: int, end: int, step: int)
    requires step > 0
    ensures EndToEnd(Windows(cur, end, step), cur, end, step)
    decreases end - cur
  {
    if cur < end {
      var next := Min(cur + step, end);
      WindowsEndToEnd(next, end, step);
      var ws, rest := Windows(cur, end, step), Windows(next, end, step);
      assert ws == [Window(cur, next)] + rest;
    }
  }

  /** How many windows contain a point. */
  function Covering(ws: seq<Window>, t: int): nat {
    if ws == [] then 0 else (if ws[0].start <= t <= ws[0].end then 1 else 0) + Covering(ws[1..], t)
  }

  predicate InteriorBoundary(start: int, end: int, step: int, t: int)
    requires step > 0
  {
    start < t < end && (t - start) % step == 0
  }

  /** The windows cover exactly the closed range, once each point, twice an interior boundary. */
  lemma {:induction false} WindowsCover(cur: int, end: int, step: int, t: int)
    requires step > 0
    ensures Covering(Windows(cur, end, step), t) ==
            if cur < end && cur <= t <= end then (if InteriorBoundary(cur, end, step, t) then 2 else 1) else 0
    decreases end - cur
  {
    if cur < end {
      var next := Min(cur + step, end);
      WindowsCover(next, end, step, t);
      assert Windows(cur, end, step)[1..] == Windows(next, end, step);
      if next == cur + step {
        BoundaryShift(cur, step, t);
      } else if cur < t < end {
        SmallRemainder(t - cur, step);
      }
    }
  }

  lemma BoundaryShift(cur: int, step: int, t: int)
    requires step > 0
    ensures (t - cur) % step == (t - (cur + step)) % step
    ensures cur < t < cur + step ==> (t - cur) % step != 0
    ensures t == cur + step ==> (t - cur) % step == 0
  {
    var d := t - cur;
    assert d == step * (d / step) + d % step;
    assert d - step == step * (d / step - 1) + d % step;
    DivUnique(d - step, step, d / step - 1, d % step);
    if 0 < d < step {
      SmallRemainder(d, step);
    }
  }

  lemma SmallRemainder(d: int, step: int)
    requires 0 <= d < step
    ensures d % step == d
  {
    DivUnique(d, step, 0, d);
  }

  lemma DivUnique(n: int, d: int, q: int, r: int)
    requires d > 0 && n == d * q + r && 0 <= r < d
    ensures n / d == q && n % d == r
  {
    var q', r' := n / d, n % d;
    assert d * q' + r' == d * q + r;
    if q > q' {
      Multiple(d, q - q');
    } else if q < q' {
      Multiple(d, q' - q);
    }
  }

  lemma {:induction false} Multiple(d: int, k: int)
    requires d > 0 && k > 0
    ensures d * k >= d
  {
    if k > 1 {
      Multiple(d, k - 1);
      assert d * k == d * (k - 1) + d;
    }
  }
}
