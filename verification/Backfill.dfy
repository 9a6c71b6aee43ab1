/** Fetching a long range in yearly batches into the store: `BackfillManager.backfill` without the clamp. */
module Backfill {
  import opened Common
  import opened TimeSeries
  import opened BarStore

  /** 365 days, in microseconds. */
  const MAX_SPAN: int := 31_536_000_000_000

  /**
   What becomes of one window: bars, a failure to fetch, or bars that arrived but whose validation or write failed before
   anything was stored, with the messages this leaves.
   */
  datatype Fetch = Bars(bars: seq<Bar>) | Raises(message: string) | Unwritten(arrived: seq<Bar>, messages: seq<string>)

  type Provider = (int, int) -> Fetch
  type Validator = seq<Bar> -> seq<string>

  datatype BackfillResult = BackfillResult(barsFetched: nat, barsWritten: nat, errors: seq<string>)

  /** The batches a provider delivers for a list of windows: the answers that did not fail and hold bars. */
  function Delivered(provider: Provider, ws: seq<Window>): seq<seq<Bar>> {
    if ws == [] then []
    else
      var front, w := Delivered(provider, ws[..|ws| - 1]), ws[|ws| - 1];
      match provider(w.start, w.end)
      case Raises(_) => front
      case Unwritten(_, _) => front
      case Bars(bars) => if bars == [] then front else front + [bars]
  }

  function Errors(provider: Provider, validator: Validator, ws: seq<Window>): seq<string> {
    if ws == [] then []
    else
      var front, w := Errors(provider, validator, ws[..|ws| - 1]), ws[|ws| - 1];
      match provider(w.start, w.end)
      case Raises(message) => front + ["Batch error: " + message]
      case Unwritten(_, messages) => front + messages
      case Bars(bars) => if bars == [] then front else front + validator(bars)
  }

  /** What a fetch writes and what it reports. */
  function Batch(fetch: Fetch): seq<seq<Bar>> {
    if fetch.Bars? && fetch.bars != [] then [fetch.bars] else []
  }

  function BatchSize(fetch: Fetch): nat {
    if fetch.Bars? then |fetch.bars| else 0
  }

  function ArrivedSize(fetch: Fetch): nat {
    if fetch.Unwritten? then |fetch.arrived| else BatchSize(fetch)
  }

  /** The bars that arrived over a list of windows. */
  function Arrived(provider: Provider, ws: seq<Window>): nat {
    if ws == [] then 0
    else Arrived(provider, ws[..|ws| - 1]) + ArrivedSize(provider(ws[|ws| - 1].start, ws[|ws| - 1].end))
  }

  /** As many bars are written as are fetched exactly when no window's bars are lost on the way. */
  lemma {:induction false} WrittenIsFetched(provider: Provider, ws: seq<Window>)
    ensures |Written(Delivered(provider, ws))| <= Arrived(provider, ws)
    ensures |Written(Delivered(provider, ws))| == Arrived(provider, ws) <==>
            forall w :: w in ws && provider(w.start, w.end).Unwritten? ==> provider(w.start, w.end).arrived == []
  {
    if ws != [] {
      var rest, w := ws[..|ws| - 1], ws[|ws| - 1];
      assert ws == rest + [w];
      WrittenIsFetched(provider, rest);
      var fetch, before := provider(w.start, w.end), Delivered(provider, rest);
      assert Delivered(provider, ws) == before + Batch(fetch);
      if Batch(fetch) != [] {
        WrittenAppend(before, fetch.bars);
      }
      assert |Written(Delivered(provider, ws))| == |Written(before)| + BatchSize(fetch);
    }
  }

  function Issues(fetch: Fetch, validator: Validator): seq<string> {
    match fetch
    case Raises(message) => ["Batch error: " + message]
    case Unwritten(_, messages) => messages
    case Bars(bars) => if bars == [] then [] else validator(bars)
  }

  /** The windows `done` have been fetched, on top of the batches `base`; those from `current` on are left. */
  ghost predicate Progress(provider: Provider, validator: Validator, start: int, end: int, base: seq<seq<Bar>>,
                           current: int, done: seq<Window>, batches: seq<seq<Bar>>, fetched: nat, n: nat, errors: seq<string>)
  {
    && done + Windows(current, end, MAX_SPAN) == Windows(start, end, MAX_SPAN)
    && batches == base + Delivered(provider, done)
    && fetched == Arrived(provider, done) && n == |Written(Delivered(provider, done))|
    && errors == Errors(provider, validator, done)
  }

  lemma ProgressStart(provider: Provider, validator: Validator, start: int, end: int, base: seq<seq<Bar>>)
    ensures Progress(provider, validator, start, end, base, start, [], base, 0, 0, [])
  {
  }

  lemma ProgressStep(provider: Provider, validator: Validator, start: int, end: int, base: seq<seq<Bar>>,
                     current: int, done: seq<Window>, batches: seq<seq<Bar>>, fetched: nat, n: nat, errors: seq<string>)
    requires current < end
    requires Progress(provider, validator, start, end, base, current, done, batches, fetched, n, errors)
    ensures var w := Window(current, Min(current + MAX_SPAN, end));
            var fetch := provider(w.start, w.end);
            Progress(provider, validator, start, end, base, w.end, done + [w],
                     batches + Batch(fetch), fetched + ArrivedSize(fetch), n + BatchSize(fetch), errors + Issues(fetch, validator))
  {
    var w := Window(current, Min(current + MAX_SPAN, end));
    var rest, fetch := Windows(w.end, end, MAX_SPAN), provider(w.start, w.end);
    var before := Delivered(provider, done);
    assert done + ([w] + rest) == (done + [w]) + rest;
    assert (done + [w])[..|done|] == done;
    assert Delivered(provider, done + [w]) == before + Batch(fetch);
    assert (base + before) + Batch(fetch) == base + (before + Batch(fetch));
    if fetch.Bars? && fetch.bars != [] {
      WrittenAppend(before, fetch.bars);
    }
  }

  lemma ProgressEnd(provider: Provider, validator: Validator, start: int, end: int, base: seq<seq<Bar>>,
                    current: int, done: seq<Window>, batches: seq<seq<Bar>>, fetched: nat, n: nat, errors: seq<string>)
    requires current >= end
    requires Progress(provider, validator, start, end, base, current, done, batches, fetched, n, errors)
    ensures done == Windows(start, end, MAX_SPAN)
    ensures batches == base + Delivered(provider, done)
    ensures fetched == Arrived(provider, done) && n == |Written(Delivered(provider, done))|
    ensures errors == Errors(provider, validator, done)
  {
    assert done + [] == done;
  }

  /** What each outcome of a window comes to. */
  predicate Handled(fetch: Fetch, validator: Validator, before: seq<seq<Bar>>, after: seq<seq<Bar>>, fetched: nat, n: nat, issues: seq<string>) {
    if fetch.Raises? then after == before && fetched == n == 0 && issues == ["Batch error: " + fetch.message]
    else if fetch.Unwritten? then after == before && fetched == |fetch.arrived| && n == 0 && issues == fetch.messages
    else if fetch.bars == [] then after == before && fetched == n == 0 && issues == []
    else after == before + [fetch.bars] && fetched == n == |fetch.bars| && issues == validator(fetch.bars)
  }

  /** The messages of a window. */
  ghost predicate Reported(errors: seq<string>, fetch: Fetch, validator: Validator) {
    && (fetch.Raises? ==> "Batch error: " + fetch.message in errors)
    && (fetch.Unwritten? ==> forall x :: x in fetch.messages ==> x in errors)
    && (fetch.Bars? && fetch.bars != [] ==> forall x :: x in validator(fetch.bars) ==> x in errors)
  }

  ghost predicate Silent(fetch: Fetch, validator: Validator) {
    if fetch.Bars? then fetch.bars == [] || validator(fetch.bars) == [] else fetch.Unwritten? && fetch.messages == []
  }

  /** Windows are reported one after another. */
  lemma ErrorsAppend(provider: Provider, validator: Validator, ws: seq<Window>, w: Window)
    ensures Errors(provider, validator, ws + [w]) == Errors(provider, validator, ws) + Issues(provider(w.start, w.end), validator)
  {
    assert (ws + [w])[..|ws|] == ws;
  }

  /** Every window's messages are reported, and nothing is exactly when no window has any. */
  lemma {:induction false} ErrorsReported(provider: Provider, validator: Validator, ws: seq<Window>)
    ensures forall w :: w in ws ==> Reported(Errors(provider, validator, ws), provider(w.start, w.end), validator)
    ensures Errors(provider, validator, ws) == [] <==> forall w :: w in ws ==> Silent(provider(w.start, w.end), validator)
  {
    if ws != [] {
      var rest, w := ws[..|ws| - 1], ws[|ws| - 1];
      assert ws == rest + [w];
      ErrorsReported(provider, validator, rest);
      ErrorsAppend(provider, validator, rest, w);
      assert w in ws;
      hide Errors;
      var before, fetch := Errors(provider, validator, rest), provider(w.start, w.end);
      forall x | x in ws
        ensures Reported(before + Issues(fetch, validator), provider(x.start, x.end), validator)
      {
        assert x in rest || x == w;
      }
    }
  }

  class BackfillManager {
    const provider: Provider
    const validator: Validator
    const store: DataStore

    constructor (provider: Provider, validator: Validator, store: DataStore)
      ensures this.provider == provider && this.validator == validator && this.store == store
    {
      this.provider, this.validator, this.store := provider, validator, store;
    }

    /** Fetches one window and writes what comes back; a failure leaves the store alone. */
    method FetchBatch(w: Window) returns (fetched: nat, n: nat, issues: seq<string>)
      requires store.Valid()
      modifies store
      ensures store.Valid()
      ensures store.batches == old(store.batches) + Batch(provider(w.start, w.end))
      ensures fetched == ArrivedSize(provider(w.start, w.end)) && n == BatchSize(provider(w.start, w.end))
      ensures issues == Issues(provider(w.start, w.end), validator)
      ensures Handled(provider(w.start, w.end), validator, old(store.batches), store.batches, fetched, n, issues)
    {
      hide DataStore.Valid;
      fetched, n, issues := 0, 0, [];
      match provider(w.start, w.end) {
        case Raises(message) =>
          issues := ["Batch error: " + message];
        case Unwritten(arrived, messages) =>
          fetched := |arrived|;
          issues := messages;
        case Bars(bars) =>
          fetched := |bars|;
          if bars != [] {
            issues := validator(bars);
            n := store.WriteBars(bars);
          }
      }
    }

    /** Steps through the range; a failing window is recorded and skipped, every other one is written. */
    method Backfill(start: int, end: int) returns (result: BackfillResult)
      requires store.Valid()
      modifies store
      ensures store.Valid()
      ensures store.batches == old(store.batches) + Delivered(provider, Windows(start, end, MAX_SPAN))
      ensures result.barsFetched == Arrived(provider, Windows(start, end, MAX_SPAN))
      ensures result.barsWritten == |Written(Delivered(provider, Windows(start, end, MAX_SPAN)))|
      ensures result.errors == Errors(provider, validator, Windows(start, end, MAX_SPAN))
      ensures forall w :: w in Windows(start, end, MAX_SPAN) ==> Reported(result.errors, provider(w.start, w.end), validator)
      ensures result.errors == [] <==>
              forall w :: w in Windows(start, end, MAX_SPAN) ==> Silent(provider(w.start, w.end), validator)
    {
      hide DataStore.Valid, Progress, Reported, Silent;
      var fetched, written, errors := 0, 0, [];
      var current := start;
      ghost var done: seq<Window> := [];
      ghost var base := store.batches;
      ProgressStart(provider, validator, start, end, base);
      while current < end
        invariant store.Valid()
        invariant Progress(provider, validator, start, end, base, current, done, store.batches, fetched, written, errors)
        decreases end - current
      {
        var batchEnd := Min(current + MAX_SPAN, end);
        var w := Window(current, batchEnd);
        ProgressStep(provider, validator, start, end, base, current, done, store.batches, fetched, written, errors);
        var arrived, n, issues := FetchBatch(w);
        fetched, written, errors := fetched + arrived, written + n, errors + issues;
        current := batchEnd;
        done := done + [w];
      }
      ProgressEnd(provider, validator, start, end, base, current, done, store.batches, fetched, written, errors);
      ErrorsReported(provider, validator, Windows(start, end, MAX_SPAN));
      result := BackfillResult(fetched, written, errors);
    }
  }

  /** The provider answers the windows, when it answers, with exactly the bars of a series in them. */
  ghost predicate Faithful(provider: Provider, series: seq<Bar>, ws: seq<Window>) {
    forall w :: w in ws ==>
      !provider(w.start, w.end).Bars? || provider(w.start, w.end) == Bars(Range(series, w.start, w.end))
  }

  /** Windows that hold a point and did not fail. */
  ghost predicate Fetched(provider: Provider, ws: seq<Window>, t: int) {
    exists w :: w in ws && w.start <= t <= w.end && provider(w.start, w.end).Bars?
  }

  /** The store gets exactly the bars of the windows that did not fail, although windows overlap. */
  lemma {:induction false} DeliveredSeries(provider: Provider, series: seq<Bar>, ws: seq<Window>, t: int)
    requires Faithful(provider, series, ws)
    ensures Lookup(Written(Delivered(provider, ws)), t) == if Fetched(provider, ws, t) then Lookup(series, t) else None
  {
    if ws != [] {
      var rest, w := ws[..|ws| - 1], ws[|ws| - 1];
      assert ws == rest + [w] && w in ws;
      assert Faithful(provider, series, rest) by {
        assert forall x :: x in rest ==> x in ws;
      }
      DeliveredSeries(provider, series, rest, t);
      RangeLookup(series, w.start, w.end, t);
      if provider(w.start, w.end).Bars? {
        var bars := Range(series, w.start, w.end);
        WrittenAppend(Delivered(provider, rest), bars);
        LookupAppend(Written(Delivered(provider, rest)), bars, t);
      }
      FetchedStep(provider, rest, w, t);
    }
  }

  lemma FetchedStep(provider: Provider, rest: seq<Window>, w: Window, t: int)
    ensures Fetched(provider, rest + [w], t) <==>
            Fetched(provider, rest, t) || (w.start <= t <= w.end && provider(w.start, w.end).Bars?)
  {
    if Fetched(provider, rest, t) {
      var x :| x in rest && x.start <= t <= x.end && provider(x.start, x.end).Bars?;
      assert x in rest + [w];
    }
    if w.start <= t <= w.end && provider(w.start, w.end).Bars? {
      assert w in rest + [w];
    }
  }

  lemma {:induction false} DeliveredIncreasing(provider: Provider, series: seq<Bar>, ws: seq<Window>)
    requires Faithful(provider, series, ws) && Increasing(series)
    ensures AllIncreasing(Delivered(provider, ws))
  {
    if ws != [] {
      hide Increasing;
      var rest, w := ws[..|ws| - 1], ws[|ws| - 1];
      assert w in ws;
      assert Faithful(provider, series, rest) by {
        assert forall x :: x in rest ==> x in ws;
      }
      DeliveredIncreasing(provider, series, rest);
      RangeIncreasing(series, w.start, w.end);
    }
  }

  ghost predicate NeverFails(provider: Provider, ws: seq<Window>) {
    forall w :: w in ws ==> provider(w.start, w.end).Bars?
  }

  lemma {:induction false} CoveringWitness(ws: seq<Window>, t: int)
    ensures Covering(ws, t) > 0 <==> exists w :: w in ws && w.start <= t <= w.end
  {
    if ws != [] {
      CoveringWitness(ws[1..], t);
      assert ws == [ws[0]] + ws[1..];
      if w :| w in ws && w.start <= t <= w.end {
        assert w == ws[0] || w in ws[1..];
      }
    }
  }

  /** A backfill without failures delivers the series over the whole range, nothing when the range is one point. */
  lemma BackfillSeries(provider: Provider, series: seq<Bar>, start: int, end: int, t: int)
    requires Faithful(provider, series, Windows(start, end, MAX_SPAN))
    requires NeverFails(provider, Windows(start, end, MAX_SPAN))
    ensures Lookup(Written(Delivered(provider, Windows(start, end, MAX_SPAN))), t) ==
            if start < end && start <= t <= end then Lookup(series, t) else None
  {
    var ws := Windows(start, end, MAX_SPAN);
    DeliveredSeries(provider, series, ws, t);
    CoveringWitness(ws, t);
    WindowsCover(start, end, MAX_SPAN, t);
  }

  ghost predicate SameFiles(a: seq<seq<Bar>>, b: seq<seq<Bar>>, monthOf: int -> YearMonth) {
    forall m :: Contents(a, monthOf, m) == Contents(b, monthOf, m)
  }

  /** In-order batches standing for the same series make the same files. */
  lemma SameSeriesSameFiles(a: seq<seq<Bar>>, b: seq<seq<Bar>>, monthOf: int -> YearMonth)
    requires AllIncreasing(a) && AllIncreasing(b)
    ensures SameFiles(a, b, monthOf) <==> SameSeries(Written(a), Written(b))
  {
    hide Increasing, Canonical, InMonth;
    if SameSeries(Written(a), Written(b)) {
      forall m
        ensures Contents(a, monthOf, m) == Contents(b, monthOf, m)
      {
        OrderedBatches(a, monthOf, m);
        OrderedBatches(b, monthOf, m);
        ContentsSeries(a, monthOf, m);
        ContentsSeries(b, monthOf, m);
        MonthSeries(Written(a), Written(b), monthOf, m);
        if Contents(a, monthOf, m).Some? && Contents(b, monthOf, m).Some? {
          SeriesTransitive(Contents(a, monthOf, m).value, InMonth(Written(a), monthOf, m),
                           InMonth(Written(b), monthOf, m), Contents(b, monthOf, m).value);
          SeriesUnique(Contents(a, monthOf, m).value, Contents(b, monthOf, m).value);
        } else {
          EmptySeries(InMonth(Written(a), monthOf, m), InMonth(Written(b), monthOf, m));
        }
      }
    }
    if SameFiles(a, b, monthOf) {
      forall t
        ensures Lookup(Written(a), t) == Lookup(Written(b), t)
      {
        var m := monthOf(t);
        ContentsSeries(a, monthOf, m);
        ContentsSeries(b, monthOf, m);
        InMonthLookup(Written(a), monthOf, m, t);
        InMonthLookup(Written(b), monthOf, m, t);
        assert Contents(a, monthOf, m) == Contents(b, monthOf, m);
        if Contents(a, monthOf, m).Some? {
          SameAt(Contents(a, monthOf, m).value, InMonth(Written(a), monthOf, m), t);
          SameAt(Contents(b, monthOf, m).value, InMonth(Written(b), monthOf, m), t);
        }
      }
    }
  }

  lemma ContentsSeries(batches: seq<seq<Bar>>, monthOf: int -> YearMonth, m: YearMonth)
    ensures Contents(batches, monthOf, m) == None <==> InMonth(Written(batches), monthOf, m) == []
    ensures Contents(batches, monthOf, m).Some? ==>
              SameSeries(Contents(batches, monthOf, m).value, InMonth(Written(batches), monthOf, m))
  {
    hide Canonical, InMonth;
    NeverWritten(batches, monthOf, m);
    CanonicalSpec(InMonth(Written(batches), monthOf, m));
  }

  lemma MonthSeries(a: seq<Bar>, b: seq<Bar>, monthOf: int -> YearMonth, m: YearMonth)
    requires SameSeries(a, b)
    ensures SameSeries(InMonth(a, monthOf, m), InMonth(b, monthOf, m))
  {
    forall t
      ensures Lookup(InMonth(a, monthOf, m), t) == Lookup(InMonth(b, monthOf, m), t)
    {
      InMonthLookup(a, monthOf, m, t);
      InMonthLookup(b, monthOf, m, t);
      SameAt(a, b, t);
    }
  }

  lemma SeriesTransitive(a: seq<Bar>, b: seq<Bar>, c: seq<Bar>, d: seq<Bar>)
    requires SameSeries(a, b) && SameSeries(b, c) && SameSeries(d, c)
    ensures SameSeries(a, d)
  {
  }

  lemma EmptySeries(a: seq<Bar>, b: seq<Bar>)
    requires SameSeries(a, b)
    ensures a == [] <==> b == []
  {
    if a != [] {
      SameAt(a, b, a[0].timestamp);
    }
    if b != [] {
      SameAt(a, b, b[0].timestamp);
    }
  }

  /**
   With a provider that answers every window with exactly its bars in time order, the batched backfill makes
   the same files as writing one fetch of the whole range, unless the range is a single point holding a bar:
   then no window is fetched at all.
   */
  lemma BackfillIsSingleFetch(provider: Provider, series: seq<Bar>, start: int, end: int, monthOf: int -> YearMonth)
    requires Increasing(series)
    requires Faithful(provider, series, Windows(start, end, MAX_SPAN))
    requires NeverFails(provider, Windows(start, end, MAX_SPAN))
    ensures SameFiles(Delivered(provider, Windows(start, end, MAX_SPAN)), [Range(series, start, end)], monthOf)
            <==> start != end || Lookup(series, start) == None
  {
    hide Increasing, Windows, Faithful, NeverFails, SameFiles;
    var a, b := Delivered(provider, Windows(start, end, MAX_SPAN)), [Range(series, start, end)];
    DeliveredIncreasing(provider, series, Windows(start, end, MAX_SPAN));
    RangeIncreasing(series, start, end);
    SameSeriesSameFiles(a, b, monthOf);
    WrittenAppend([], Range(series, start, end));
    assert [] + b == b && [] + b[0] == b[0];
    forall t
      ensures Lookup(Written(a), t) == Lookup(Written(b), t) <==> t != start || start != end || Lookup(series, t) == None
    {
      BackfillSeries(provider, series, start, end, t);
      RangeLookup(series, start, end, t);
    }
  }

  // ----- how many bars are fetched

  lemma {:induction false} RangeSplit(bars: seq<Bar>, s: int, mid: int, e: int)
    requires s <= mid <= e
    ensures |Range(bars, s, mid)| + |Range(bars, mid, e)| == |Range(bars, s, e)| + Count(bars, mid)
  {
    if bars != [] {
      RangeSplit(bars[1..], s, mid, e);
    }
  }

  /** Bars on interior batch boundaries, which two batches fetch. */
  function BoundaryBars(bars: seq<Bar>, cur: int, end: int, step: int): nat
    requires step > 0
    decreases end - cur
  {
    if cur + step >= end then 0 else Count(bars, cur + step) + BoundaryBars(bars, cur + step, end, step)
  }

  function TotalIn(bars: seq<Bar>, ws: seq<Window>): nat {
    if ws == [] then 0 else |Range(bars, ws[0].start, ws[0].end)| + TotalIn(bars, ws[1..])
  }

  lemma {:induction false} TotalInWindows(bars: seq<Bar>, cur: int, end: int, step: int)
    requires step > 0 && cur < end
    ensures TotalIn(bars, Windows(cur, end, step)) == |Range(bars, cur, end)| + BoundaryBars(bars, cur, end, step)
    decreases end - cur
  {
    var next := Min(cur + step, end);
    assert Windows(cur, end, step)[1..] == Windows(next, end, step);
    if next < end {
      TotalInWindows(bars, next, end, step);
      RangeSplit(bars, cur, next, end);
    }
  }

  lemma {:induction false} TotalInAppend(bars: seq<Bar>, ws: seq<Window>, w: Window)
    ensures TotalIn(bars, ws + [w]) == TotalIn(bars, ws) + |Range(bars, w.start, w.end)|
  {
    if ws == [] {
      assert [] + [w] == [w] && [w][1..] == [];
    } else {
      assert (ws + [w])[1..] == ws[1..] + [w];
      TotalInAppend(bars, ws[1..], w);
    }
  }

  lemma {:induction false} DeliveredTotal(provider: Provider, series: seq<Bar>, ws: seq<Window>)
    requires Faithful(provider, series, ws) && NeverFails(provider, ws)
    ensures |Written(Delivered(provider, ws))| == TotalIn(series, ws)
  {
    if ws != [] {
      var rest, w := ws[..|ws| - 1], ws[|ws| - 1];
      assert ws == rest + [w] && w in ws;
      assert Faithful(provider, series, rest) && NeverFails(provider, rest) by {
        assert forall x :: x in rest ==> x in ws;
      }
      DeliveredTotal(provider, series, rest);
      TotalInAppend(series, rest, w);
      WrittenAppend(Delivered(provider, rest), Range(series, w.start, w.end));
    }
  }

  /** Every bar of the range is fetched once, and once more when it lies on an interior batch boundary. */
  lemma BackfillTotal(provider: Provider, series: seq<Bar>, start: int, end: int)
    requires start < end
    requires Faithful(provider, series, Windows(start, end, MAX_SPAN))
    requires NeverFails(provider, Windows(start, end, MAX_SPAN))
    ensures |Written(Delivered(provider, Windows(start, end, MAX_SPAN)))| ==
            |Range(series, start, end)| + BoundaryBars(series, start, end, MAX_SPAN)
  {
    DeliveredTotal(provider, series, Windows(start, end, MAX_SPAN));
    TotalInWindows(series, start, end, MAX_SPAN);
  }
}
