/**
 The risk engine: sizing chain, clamp, filter chain with its audit trail, the resulting position plan, the slices of
 its execution plan, and what executing a plan does to a simulated position.
 */
module RiskEngine {
  import opened Common
  import opened Fills
  import opened RiskFilters

  // ----- sizing

  datatype Sizing = Sizing(method_: string, qty: real)

  /** The first positive size in the list. */
  function FirstPositive(sizes: seq<Sizing>): Option<Sizing> {
    if sizes == [] then None
    else if sizes[0].qty > 0.0 then Some(sizes[0])
    else FirstPositive(sizes[1..])
  }

  /** The first positive size of volatility targeting. */
  function FirstTargeting(sizes: seq<Sizing>): Option<Sizing> {
    if sizes == [] then None
    else if sizes[0].method_ == "volatility_targeting" && sizes[0].qty > 0.0 then Some(sizes[0])
    else FirstTargeting(sizes[1..])
  }

  /** Volatility targeting is preferred wherever it stands; otherwise the first positive size. */
  function Chosen(sizes: seq<Sizing>): Option<Sizing> {
    if FirstTargeting(sizes).Some? then FirstTargeting(sizes) else FirstPositive(sizes)
  }

  /** With volatility targeting only at the head of the list, where the engine has it, the list's order decides. */
  lemma ChosenInOrder(sizes: seq<Sizing>)
    requires forall i :: 0 < i < |sizes| ==> sizes[i].method_ != "volatility_targeting"
    ensures Chosen(sizes) == FirstPositive(sizes)
  {
    if sizes != [] {
      NoTargeting(sizes[1..]);
    }
  }

  lemma {:induction false} NoTargeting(sizes: seq<Sizing>)
    requires forall i :: 0 <= i < |sizes| ==> sizes[i].method_ != "volatility_targeting"
    ensures FirstTargeting(sizes) == None
  {
    if sizes != [] {
      NoTargeting(sizes[1..]);
    }
  }

  /** A size is chosen exactly when some calculator gives a positive one, and then it is one of those. */
  lemma {:induction false} ChosenPositive(sizes: seq<Sizing>)
    ensures Chosen(sizes) == None <==> forall i :: 0 <= i < |sizes| ==> sizes[i].qty <= 0.0
    ensures Chosen(sizes).Some? ==> Chosen(sizes).value in sizes && Chosen(sizes).value.qty > 0.0
  {
    if sizes != [] {
      ChosenPositive(sizes[1..]);
      assert forall i :: 0 < i < |sizes| ==> sizes[i] == sizes[1..][i - 1];
    }
  }

  /** The first positive volatility target, or where there is none the first positive size. */
  ghost predicate IsChoice(sizes: seq<Sizing>, i: nat) {
    && i < |sizes| && sizes[i].qty > 0.0
    && if sizes[i].method_ == "volatility_targeting"
       then forall j :: 0 <= j < i && sizes[j].method_ == "volatility_targeting" ==> sizes[j].qty <= 0.0
       else && (forall j :: 0 <= j < |sizes| && sizes[j].method_ == "volatility_targeting" ==> sizes[j].qty <= 0.0)
            && (forall j :: 0 <= j < i ==> sizes[j].qty <= 0.0)
  }

  lemma {:induction false} FirstTargetingAt(sizes: seq<Sizing>, i: nat)
    requires i < |sizes| && sizes[i].method_ == "volatility_targeting" && sizes[i].qty > 0.0
    requires forall j :: 0 <= j < i && sizes[j].method_ == "volatility_targeting" ==> sizes[j].qty <= 0.0
    ensures FirstTargeting(sizes) == Some(sizes[i])
  {
    if i > 0 {
      assert forall j :: 0 <= j < |sizes| - 1 ==> sizes[1..][j] == sizes[j + 1];
      FirstTargetingAt(sizes[1..], i - 1);
    }
  }

  lemma {:induction false} FirstPositiveAt(sizes: seq<Sizing>, i: nat)
    requires i < |sizes| && sizes[i].qty > 0.0 && forall j :: 0 <= j < i ==> sizes[j].qty <= 0.0
    ensures FirstPositive(sizes) == Some(sizes[i])
  {
    if i > 0 {
      assert forall j :: 0 <= j < |sizes| - 1 ==> sizes[1..][j] == sizes[j + 1];
      FirstPositiveAt(sizes[1..], i - 1);
    }
  }

  lemma {:induction false} NoPositiveTarget(sizes: seq<Sizing>)
    requires forall j :: 0 <= j < |sizes| && sizes[j].method_ == "volatility_targeting" ==> sizes[j].qty <= 0.0
    ensures FirstTargeting(sizes) == None
  {
    if sizes != [] {
      assert forall j :: 0 <= j < |sizes| - 1 ==> sizes[1..][j] == sizes[j + 1];
      NoPositiveTarget(sizes[1..]);
    }
  }

  /** The choice is the size at such an index. */
  lemma ChosenAt(sizes: seq<Sizing>, i: nat)
    requires IsChoice(sizes, i)
    ensures Chosen(sizes) == Some(sizes[i])
  {
    if sizes[i].method_ == "volatility_targeting" {
      FirstTargetingAt(sizes, i);
    } else {
      NoPositiveTarget(sizes);
      FirstPositiveAt(sizes, i);
    }
  }

  /** Runs the calculators in order and stops at a positive volatility target; otherwise takes the first positive size. */
  method RunSizingChain(calculators: seq<Sizing>) returns (r: Sizing)
    ensures r == match Chosen(calculators) case None => Sizing("none", 0.0) case Some(s) => s
    ensures if forall i :: 0 <= i < |calculators| ==> calculators[i].qty <= 0.0 then r == Sizing("none", 0.0)
            else exists i: nat :: IsChoice(calculators, i) && r == calculators[i]
  {
    ChosenPositive(calculators);
    var results := [];
    for i := 0 to |calculators|
      invariant results == calculators[..i]
      invariant FirstTargeting(calculators[i..]) == FirstTargeting(calculators)
      invariant forall j :: 0 <= j < i && calculators[j].method_ == "volatility_targeting" ==> calculators[j].qty <= 0.0
    {
      assert calculators[i..][1..] == calculators[i + 1..];
      results := results + [calculators[i]];
      if calculators[i].method_ == "volatility_targeting" && calculators[i].qty > 0.0 {
        assert IsChoice(calculators, i);
        return calculators[i];
      }
    }
    for i := 0 to |results|
      invariant FirstPositive(calculators[i..]) == FirstPositive(calculators)
      invariant forall j :: 0 <= j < i ==> calculators[j].qty <= 0.0
    {
      assert calculators[i..][1..] == calculators[i + 1..];
      if results[i].qty > 0.0 {
        assert IsChoice(calculators, i);
        return results[i];
      }
    }
    r := Sizing("none", 0.0);
  }

  // ----- filters

  datatype Adjustment = Adjustment(filter: string, kind: string, original: real, adjusted: real)

  datatype LimitCheck = LimitCheck(filter: string, rawQty: real, actualQty: real, passed: bool, mode: Mode)

  datatype FilterRun = FilterRun(qty: real, adjustments: seq<Adjustment>, checks: seq<LimitCheck>, veto: bool, reason: Option<string>)

  /** The quantity that reaches filter `i`. */
  function Entering(filters: seq<Filter>, qty: real, i: nat): real
    requires i <= |filters|
  {
    if i == 0 then qty else filters[i - 1].Apply(Entering(filters, qty, i - 1)).adjustedQty
  }

  /** An audit trail leads from one quantity to another: each entry starts where the one before ended, and changes it. */
  ghost predicate Telescopes(trail: seq<Adjustment>, from: real, to: real) {
    if trail == [] then from == to
    else
      var last := trail[|trail| - 1];
      last.adjusted == to && last.original != to && Telescopes(trail[..|trail| - 1], from, last.original)
  }

  /** One limit check per filter, each recording the quantity that entered the chain and the one that reached it. */
  ghost predicate Checked(checks: seq<LimitCheck>, filters: seq<Filter>, qty: real) {
    && |checks| <= |filters|
    && forall i :: 0 <= i < |checks| ==>
         var result := filters[i].Apply(Entering(filters, qty, i));
         checks[i] == LimitCheck(filters[i].name, qty, Entering(filters, qty, i), result.limitCheckPassed, result.mode)
  }

  ghost predicate SomeFails(filters: seq<Filter>, qty: real, n: nat)
    requires n <= |filters|
  {
    exists i :: 0 <= i < n && !filters[i].Apply(Entering(filters, qty, i)).passed
  }

  function KindOf(result: FilterResult, current: real): string {
    if result.mode == Veto then "zeroed" else if result.adjustedQty < current then "reduced" else "capped"
  }

  function ReasonOf(f: Filter, result: FilterResult): string {
    if result.details != "" then result.details else f.name + " veto"
  }

  /** One entry for every filter that changed the quantity which reached it, in the order of the filters. */
  function Trail(filters: seq<Filter>, qty: real, n: nat): seq<Adjustment>
    requires n <= |filters|
  {
    if n == 0 then []
    else
      var current := Entering(filters, qty, n - 1);
      var result := filters[n - 1].Apply(current);
      Trail(filters, qty, n - 1)
      + if result.adjustedQty == current then []
        else [Adjustment(filters[n - 1].name, KindOf(result, current), current, result.adjustedQty)]
  }

  /** The trail leads from the quantity that enters the chain to the one that leaves it. */
  lemma {:induction false} TrailTelescopes(filters: seq<Filter>, qty: real, n: nat)
    requires n <= |filters|
    ensures Telescopes(Trail(filters, qty, n), qty, Entering(filters, qty, n))
  {
    if n > 0 {
      TrailTelescopes(filters, qty, n - 1);
      var trail := Trail(filters, qty, n - 1);
      assert Trail(filters, qty, n) != trail ==> Trail(filters, qty, n)[..|trail|] == trail;
    }
  }

  /** The reason of the last filter that failed. */
  function LastReason(filters: seq<Filter>, qty: real, n: nat): Option<string>
    requires n <= |filters|
  {
    if n == 0 then None
    else
      var result := filters[n - 1].Apply(Entering(filters, qty, n - 1));
      if result.passed then LastReason(filters, qty, n - 1) else Some(ReasonOf(filters[n - 1], result))
  }

  lemma NoneFailsYet(filters: seq<Filter>, qty: real)
    ensures !SomeFails(filters, qty, 0)
  {
  }

  lemma {:induction false} ReasonIffFailure(filters: seq<Filter>, qty: real, n: nat)
    requires n <= |filters|
    ensures LastReason(filters, qty, n).Some? <==> SomeFails(filters, qty, n)
  {
    hide SomeFails, Entering;
    if n > 0 {
      ReasonIffFailure(filters, qty, n - 1);
      SomeFailsStep(filters, qty, n - 1);
    } else {
      NoneFailsYet(filters, qty);
    }
  }

  lemma CheckedAppend(checks: seq<LimitCheck>, filters: seq<Filter>, qty: real)
    requires Checked(checks, filters, qty) && |checks| < |filters|
    ensures var i := |checks|;
            var result := filters[i].Apply(Entering(filters, qty, i));
            Checked(checks + [LimitCheck(filters[i].name, qty, Entering(filters, qty, i), result.limitCheckPassed, result.mode)], filters, qty)
  {
    hide Entering;
  }

  lemma SomeFailsStep(filters: seq<Filter>, qty: real, n: nat)
    requires n < |filters|
    ensures SomeFails(filters, qty, n + 1) <==>
            SomeFails(filters, qty, n) || !filters[n].Apply(Entering(filters, qty, n)).passed
  {
    hide Entering;
  }

  /** A negative quantity cannot be recorded: the adjustment record refuses it. */
  ghost predicate GoesNegative(filters: seq<Filter>, qty: real, n: nat)
    requires n <= |filters|
  {
    exists i :: 0 <= i <= n && Entering(filters, qty, i) < 0.0
  }

  lemma GoesNegativeStep(filters: seq<Filter>, qty: real, n: nat)
    requires n < |filters|
    ensures GoesNegative(filters, qty, n + 1) <==> GoesNegative(filters, qty, n) || Entering(filters, qty, n + 1) < 0.0
  {
    hide Entering;
  }

  /** What a filter run over a positive quantity has to show. */
  ghost predicate Audited(run: FilterRun, filters: seq<Filter>, qty: real) {
    && run.qty == Entering(filters, qty, |filters|)
    && run.adjustments == Trail(filters, qty, |filters|) && Telescopes(run.adjustments, qty, run.qty)
    && |run.checks| == |filters| && Checked(run.checks, filters, qty)
    && (run.veto <==> SomeFails(filters, qty, |filters|) || run.qty <= 0.0)
    && run.reason == (if SomeFails(filters, qty, |filters|) then LastReason(filters, qty, |filters|)
                      else if run.veto then Some("sizing_zero_quantity") else None)
  }

  // ----- a filter run, told from its checks

  /** What filter `i` made of the quantity that its check records. */
  function ResultOf(checks: seq<LimitCheck>, filters: seq<Filter>, i: nat): FilterResult
    requires i < |checks| == |filters|
  {
    filters[i].Apply(checks[i].actualQty)
  }

  /** The checks hand the quantity from filter to filter: the first gets `qty`, the last leaves `left`. */
  ghost predicate Handed(checks: seq<LimitCheck>, filters: seq<Filter>, qty: real, left: real)
    requires |checks| == |filters|
  {
    && (checks == [] ==> left == qty)
    && (checks != [] ==> checks[0].actualQty == qty && left == ResultOf(checks, filters, |checks| - 1).adjustedQty)
    && (forall i :: 0 < i < |checks| ==> checks[i].actualQty == ResultOf(checks, filters, i - 1).adjustedQty)
    && (forall i :: 0 <= i < |checks| ==>
          && checks[i].filter == filters[i].name && checks[i].rawQty == qty
          && checks[i].passed == ResultOf(checks, filters, i).limitCheckPassed && checks[i].mode == ResultOf(checks, filters, i).mode)
  }

  /** Zeroed by a veto, reduced, or else capped. */
  ghost predicate Entry(a: Adjustment, check: LimitCheck, result: FilterResult) {
    && result.adjustedQty != check.actualQty
    && a.filter == check.filter && a.original == check.actualQty && a.adjusted == result.adjustedQty
    && a.kind == (if result.mode == Veto then "zeroed" else if a.adjusted < a.original then "reduced" else "capped")
  }

  /** One entry for every one of the first `n` checks whose filter changed the quantity, and no other entry. */
  ghost predicate Listed(trail: seq<Adjustment>, checks: seq<LimitCheck>, filters: seq<Filter>, n: nat)
    requires n <= |checks| == |filters|
  {
    && (forall k :: 0 <= k < |trail| ==> exists i :: 0 <= i < n && Entry(trail[k], checks[i], ResultOf(checks, filters, i)))
    && (forall i :: 0 <= i < n && ResultOf(checks, filters, i).adjustedQty != checks[i].actualQty ==>
          exists k :: 0 <= k < |trail| && Entry(trail[k], checks[i], ResultOf(checks, filters, i)))
  }

  ghost predicate Failing(checks: seq<LimitCheck>, filters: seq<Filter>, i: nat)
    requires |checks| == |filters|
  {
    i < |checks| && !ResultOf(checks, filters, i).passed
  }

  /** The veto and its reason: that of the last filter that failed, or that nothing is left. */
  ghost predicate Justified(run: FilterRun, filters: seq<Filter>)
    requires |run.checks| == |filters|
  {
    && (run.veto <==> run.qty <= 0.0 || exists i: nat :: Failing(run.checks, filters, i))
    && (run.veto <==> run.reason.Some?)
    && ((forall i: nat :: !Failing(run.checks, filters, i)) && run.veto ==> run.reason == Some("sizing_zero_quantity"))
    && (forall i: nat :: Failing(run.checks, filters, i) && (forall j: nat :: i < j ==> !Failing(run.checks, filters, j)) ==>
          var details := ResultOf(run.checks, filters, i).details;
          run.reason == Some(if details != "" then details else filters[i].name + " veto"))
  }

  lemma CheckAt(checks: seq<LimitCheck>, filters: seq<Filter>, qty: real, i: nat)
    requires i < |checks| == |filters| && Checked(checks, filters, qty)
    ensures checks[i].actualQty == Entering(filters, qty, i)
    ensures Entering(filters, qty, i + 1) == ResultOf(checks, filters, i).adjustedQty
    ensures checks[i].filter == filters[i].name && checks[i].rawQty == qty
    ensures checks[i].passed == ResultOf(checks, filters, i).limitCheckPassed && checks[i].mode == ResultOf(checks, filters, i).mode
  {
  }

  lemma CheckedHanded(checks: seq<LimitCheck>, filters: seq<Filter>, qty: real)
    requires |checks| == |filters| && Checked(checks, filters, qty)
    ensures Handed(checks, filters, qty, Entering(filters, qty, |filters|))
  {
    assert Entering(filters, qty, 0) == qty;
    hide Checked, Entering, ResultOf;
    forall i | 0 <= i < |checks|
      ensures i > 0 ==> checks[i].actualQty == ResultOf(checks, filters, i - 1).adjustedQty
      ensures checks[i].filter == filters[i].name && checks[i].rawQty == qty
      ensures checks[i].passed == ResultOf(checks, filters, i).limitCheckPassed && checks[i].mode == ResultOf(checks, filters, i).mode
      ensures checks[i].actualQty == Entering(filters, qty, i)
      ensures Entering(filters, qty, i + 1) == ResultOf(checks, filters, i).adjustedQty
    {
      CheckAt(checks, filters, qty, i);
      if i > 0 {
        CheckAt(checks, filters, qty, i - 1);
      }
    }
  }

  lemma {:induction false} TrailListed(filters: seq<Filter>, qty: real, checks: seq<LimitCheck>, n: nat)
    requires n <= |filters| == |checks| && Checked(checks, filters, qty)
    ensures Listed(Trail(filters, qty, n), checks, filters, n)
  {
    hide Checked, Entering, Trail, Entry;
    if n == 0 {
      NoTrail(filters, qty);
    } else {
      TrailListed(filters, qty, checks, n - 1);
      TrailStep(filters, qty, checks, n - 1);
      ListedStep(Trail(filters, qty, n - 1), Trail(filters, qty, n), checks, filters, n - 1);
    }
  }

  lemma NoTrail(filters: seq<Filter>, qty: real)
    ensures Trail(filters, qty, 0) == []
  {
  }

  lemma TrailStep(filters: seq<Filter>, qty: real, checks: seq<LimitCheck>, n: nat)
    requires n < |filters| == |checks| && Checked(checks, filters, qty)
    ensures var result, before, trail := ResultOf(checks, filters, n), Trail(filters, qty, n), Trail(filters, qty, n + 1);
            if result.adjustedQty == checks[n].actualQty then trail == before
            else |trail| == |before| + 1 && trail[..|before|] == before && Entry(trail[|before|], checks[n], result)
  {
    CheckAt(checks, filters, qty, n);
    hide Checked, Entering;
    var before := Trail(filters, qty, n);
    assert Trail(filters, qty, n + 1) != before ==> Trail(filters, qty, n + 1)[..|before|] == before;
  }

  lemma ListedStep(before: seq<Adjustment>, trail: seq<Adjustment>, checks: seq<LimitCheck>, filters: seq<Filter>, n: nat)
    requires n < |checks| == |filters| && Listed(before, checks, filters, n)
    requires if ResultOf(checks, filters, n).adjustedQty == checks[n].actualQty then trail == before
             else |trail| == |before| + 1 && trail[..|before|] == before && Entry(trail[|before|], checks[n], ResultOf(checks, filters, n))
    ensures Listed(trail, checks, filters, n + 1)
  {
    hide ResultOf, Entry;
    assert forall k :: 0 <= k < |before| ==> trail[k] == before[k];
    forall i | 0 <= i < n + 1 && ResultOf(checks, filters, i).adjustedQty != checks[i].actualQty
      ensures exists k :: 0 <= k < |trail| && Entry(trail[k], checks[i], ResultOf(checks, filters, i))
    {
      if i < n {
        var k :| 0 <= k < |before| && Entry(before[k], checks[i], ResultOf(checks, filters, i));
        assert Entry(trail[k], checks[i], ResultOf(checks, filters, i));
      }
    }
  }

  lemma {:induction false} ReasonLast(filters: seq<Filter>, qty: real, checks: seq<LimitCheck>, n: nat, i: nat)
    requires i < n <= |filters| == |checks| && Checked(checks, filters, qty)
    requires Failing(checks, filters, i) && forall j: nat :: i < j < n ==> !Failing(checks, filters, j)
    ensures LastReason(filters, qty, n) == Some(ReasonOf(filters[i], ResultOf(checks, filters, i)))
  {
    hide Entering;
    assert checks[n - 1].actualQty == Entering(filters, qty, n - 1);
    if i < n - 1 {
      assert !Failing(checks, filters, n - 1);
      ReasonLast(filters, qty, checks, n - 1, i);
    }
  }

  lemma FailsAtCheck(checks: seq<LimitCheck>, filters: seq<Filter>, qty: real)
    requires |checks| == |filters| && Checked(checks, filters, qty)
    ensures SomeFails(filters, qty, |filters|) <==> exists i: nat :: Failing(checks, filters, i)
  {
    hide Entering;
    if i: nat :| Failing(checks, filters, i) {
      CheckAt(checks, filters, qty, i);
      assert !filters[i].Apply(Entering(filters, qty, i)).passed;
    }
    if SomeFails(filters, qty, |filters|) {
      var i :| 0 <= i < |filters| && !filters[i].Apply(Entering(filters, qty, i)).passed;
      CheckAt(checks, filters, qty, i);
      assert Failing(checks, filters, i);
    }
  }

  lemma AuditedJustified(run: FilterRun, filters: seq<Filter>, qty: real)
    requires Audited(run, filters, qty) && (run.veto <==> run.reason.Some?)
    ensures |run.checks| == |filters| && Justified(run, filters)
  {
    hide Telescopes, Trail, Entering, LastReason;
    var n := |filters|;
    FailsAtCheck(run.checks, filters, qty);
    forall i: nat | Failing(run.checks, filters, i) && (forall j: nat :: i < j ==> !Failing(run.checks, filters, j))
      ensures run.reason == Some(ReasonOf(filters[i], ResultOf(run.checks, filters, i)))
    {
      ReasonLast(filters, qty, run.checks, n, i);
    }
  }

  /** What the checks tell of a whole run. */
  ghost predicate Explained(run: FilterRun, filters: seq<Filter>, qty: real) {
    && |run.checks| == |filters|
    && Handed(run.checks, filters, qty, run.qty) && Listed(run.adjustments, run.checks, filters, |filters|) && Justified(run, filters)
  }

  lemma AuditedExplained(run: FilterRun, filters: seq<Filter>, qty: real)
    requires Audited(run, filters, qty) && (run.veto <==> run.reason.Some?)
    ensures Explained(run, filters, qty)
  {
    hide Telescopes, Trail, Entering, LastReason, Checked, SomeFails, Handed, Justified, Listed;
    CheckedHanded(run.checks, filters, qty);
    AuditedJustified(run, filters, qty);
    TrailListed(filters, qty, run.checks, |filters|);
  }

  /**
   Runs every filter, also after a veto.  The trail telescopes from the entering to the returned quantity; there is
   exactly one check per filter; the run is vetoed exactly when a filter fails or nothing is left.  There is no run
   when a filter answers with a negative quantity.
   */
  method RunFilters(filters: seq<Filter>, qty: real) returns (run: Option<FilterRun>)
    ensures qty <= 0.0 ==> run == Some(FilterRun(0.0, [], [], true, Some("sizing_zero_quantity")))
    ensures qty > 0.0 ==> (run == None <==> GoesNegative(filters, qty, |filters|))
    ensures qty > 0.0 && run.Some? ==> Audited(run.value, filters, qty)
    ensures run.Some? ==> (run.value.veto <==> run.value.reason.Some?)
    ensures qty > 0.0 && run.Some? ==> Explained(run.value, filters, qty)
  {
    if qty <= 0.0 {
      return Some(FilterRun(0.0, [], [], true, Some("sizing_zero_quantity")));
    }
    hide Progress, Audited, Explained, GoesNegative, KindOf, ReasonOf;
    var current, adjustments, checks, reason: Option<string> := qty, [], [], None;
    ProgressStart(filters, qty);
    for i := 0 to |filters|
      invariant Progress(filters, qty, i, current, adjustments, checks, reason)
    {
      var f := filters[i];
      var result := f.Apply(current);
      ProgressStep(filters, qty, i, current, adjustments, checks, reason);
      checks := checks + [LimitCheck(f.name, qty, current, result.limitCheckPassed, result.mode)];
      if result.adjustedQty != current {
        if result.adjustedQty < 0.0 {
          return None;
        }
        adjustments := adjustments + [Adjustment(f.name, KindOf(result, current), current, result.adjustedQty)];
        current := result.adjustedQty;
      }
      if !result.passed {
        reason := Some(ReasonOf(f, result));
      }
    }
    ProgressEnd(filters, qty, current, adjustments, checks, reason);
    var veto := reason.Some?;
    if current <= 0.0 && reason == None {
      veto, reason := true, Some("sizing_zero_quantity");
    }
    run := Some(FilterRun(current, adjustments, checks, veto, reason));
  }

  /** What has come of the first `n` filters. */
  ghost predicate Progress(filters: seq<Filter>, qty: real, n: nat, current: real,
                           adjustments: seq<Adjustment>, checks: seq<LimitCheck>, reason: Option<string>)
  {
    && n <= |filters| && current == Entering(filters, qty, n) >= 0.0 && !GoesNegative(filters, qty, n)
    && adjustments == Trail(filters, qty, n) && reason == LastReason(filters, qty, n)
    && |checks| == n && Checked(checks, filters, qty)
  }

  lemma ProgressStart(filters: seq<Filter>, qty: real)
    requires qty > 0.0
    ensures Progress(filters, qty, 0, qty, [], [], None)
  {
    ChainStart(filters, qty);
  }

  lemma ProgressStep(filters: seq<Filter>, qty: real, n: nat, current: real,
                     adjustments: seq<Adjustment>, checks: seq<LimitCheck>, reason: Option<string>)
    requires n < |filters| && Progress(filters, qty, n, current, adjustments, checks, reason)
    ensures var f := filters[n];
            var result := f.Apply(current);
            var checks' := checks + [LimitCheck(f.name, qty, current, result.limitCheckPassed, result.mode)];
            var adjustments' := if result.adjustedQty == current then adjustments
                                else adjustments + [Adjustment(f.name, KindOf(result, current), current, result.adjustedQty)];
            if result.adjustedQty < 0.0 then GoesNegative(filters, qty, |filters|)
            else Progress(filters, qty, n + 1, result.adjustedQty, adjustments', checks',
                          if result.passed then reason else Some(ReasonOf(f, result)))
  {
    hide Checked, GoesNegative, KindOf, ReasonOf;
    CheckedAppend(checks, filters, qty);
    GoesNegativeStep(filters, qty, n);
    if filters[n].Apply(current).adjustedQty < 0.0 {
      StillNegative(filters, qty, n + 1);
    }
    assert adjustments + [] == adjustments;
  }

  lemma ProgressEnd(filters: seq<Filter>, qty: real, current: real,
                    adjustments: seq<Adjustment>, checks: seq<LimitCheck>, reason: Option<string>)
    requires Progress(filters, qty, |filters|, current, adjustments, checks, reason)
    ensures var reason' := if current <= 0.0 && reason == None then Some("sizing_zero_quantity") else reason;
            var run := FilterRun(current, adjustments, checks, reason'.Some?, reason');
            Audited(run, filters, qty) && Explained(run, filters, qty) && !GoesNegative(filters, qty, |filters|)
  {
    hide Checked, GoesNegative, Entering, Trail, Telescopes, SomeFails, Explained, LastReason;
    TrailTelescopes(filters, qty, |filters|);
    ReasonIffFailure(filters, qty, |filters|);
    var reason' := if current <= 0.0 && reason == None then Some("sizing_zero_quantity") else reason;
    AuditedExplained(FilterRun(current, adjustments, checks, reason'.Some?, reason'), filters, qty);
  }

  lemma ChainStart(filters: seq<Filter>, qty: real)
    requires qty > 0.0
    ensures !GoesNegative(filters, qty, 0) && !SomeFails(filters, qty, 0)
    ensures Checked([], filters, qty)
  {
  }

  lemma StillNegative(filters: seq<Filter>, qty: real, n: nat)
    requires n <= |filters| && GoesNegative(filters, qty, n)
    ensures GoesNegative(filters, qty, |filters|)
  {
  }

  /** Filters that lower or keep what reaches them lower or keep the quantity as a whole. */
  ghost predicate KeepsOrLowers(filters: seq<Filter>, qty: real) {
    forall i :: 0 <= i < |filters| && Entering(filters, qty, i) > 0.0 ==>
      0.0 <= filters[i].Apply(Entering(filters, qty, i)).adjustedQty <= Entering(filters, qty, i)
  }

  lemma {:induction false} NeverAboveEntering(filters: seq<Filter>, qty: real, n: nat)
    requires qty > 0.0 && n <= |filters| && KeepsOrLowers(filters, qty)
    ensures 0.0 <= Entering(filters, qty, n) <= qty
  {
    if n > 0 {
      NeverAboveEntering(filters, qty, n - 1);
      var before := Entering(filters, qty, n - 1);
      assert before > 0.0 ==> 0.0 <= filters[n - 1].Apply(before).adjustedQty <= before;
    }
  }

  lemma NeverNegative(filters: seq<Filter>, qty: real)
    requires qty > 0.0 && KeepsOrLowers(filters, qty)
    ensures !GoesNegative(filters, qty, |filters|)
  {
    hide KeepsOrLowers;
    forall i | 0 <= i <= |filters|
      ensures Entering(filters, qty, i) >= 0.0
    {
      NeverAboveEntering(filters, qty, i);
    }
  }

  /** The standard filters do, when the quantity that reaches the correlation filter is close enough to its grid. */
  lemma StandardKeepsOrLowers(l: Limits, m: Market, qty: real)
    requires Sensible(l, m) && qty > 0.0
    requires Entering(StandardFilters(l, m), qty, 3) > 0.0 ==> Excess(Entering(StandardFilters(l, m), qty, 3)) <= 0.5
    ensures KeepsOrLowers(StandardFilters(l, m), qty)
  {
    hide StandardFilters, Excess;
    var filters := StandardFilters(l, m);
    SevenFilters(l, m);
    forall i | 0 <= i < |filters| && Entering(filters, qty, i) > 0.0
      ensures 0.0 <= filters[i].Apply(Entering(filters, qty, i)).adjustedQty <= Entering(filters, qty, i)
    {
      StandardNeverRaises(l, m, i, Entering(filters, qty, i));
    }
  }

  lemma SevenFilters(l: Limits, m: Market)
    ensures |StandardFilters(l, m)| == 7
  {
  }

  // ----- slices

  datatype Slice = Slice(id: nat, quantity: real, start: int, end: int)

  function Cents(x: real): real { RoundHalfEven(x * 100.0) as real / 100.0 }

  lemma CentsClose(x: real)
    ensures -0.005 <= Cents(x) - x <= 0.005
    ensures Cents(x) > 0.0 <==> x > 0.005
  {
    if x > 0.005 {
      assert RoundHalfEven(x * 100.0) >= 1;
    } else {
      assert RoundHalfEven(x * 100.0) <= 1;
    }
  }

  /** Rounding to cents crosses no whole cent. */
  lemma CentsBetween(x: real, cents: int)
    ensures cents as real <= x * 100.0 ==> cents as real <= Cents(x) * 100.0
    ensures x * 100.0 <= cents as real ==> Cents(x) * 100.0 <= cents as real
  {
    if cents as real <= x * 100.0 {
      RoundAtLeast(x * 100.0, cents);
    }
    if x * 100.0 <= cents as real {
      RoundAtMost(x * 100.0, cents);
    }
  }

  lemma CentsWhole(x: real)
    ensures Cents(x) * 100.0 == RoundHalfEven(x * 100.0) as real
  {
  }

  function TotalQuantity(slices: seq<Slice>): real {
    if slices == [] then 0.0 else TotalQuantity(slices[..|slices| - 1]) + slices[|slices| - 1].quantity
  }

  /** The windows follow each other without gap or overlap from `start`, each `length` long. */
  ghost predicate Tiles(slices: seq<Slice>, start: int, length: int) {
    && (slices != [] ==> slices[0].start == start)
    && (forall i :: 0 <= i < |slices| ==> slices[i].end == slices[i].start + length && slices[i].id == i)
    && (forall i :: 0 < i < |slices| ==> slices[i].start == slices[i - 1].end)
  }

  lemma TilesAppend(slices: seq<Slice>, start: int, length: int, next: Slice)
    requires Tiles(slices, start, length) && next.id == |slices| && next.end == next.start + length
    requires next.start == if slices == [] then start else slices[|slices| - 1].end
    ensures Tiles(slices + [next], start, length)
  {
  }

  function Share(qty: real, n: nat): real
    requires n > 0
  {
    qty / n as real
  }

  lemma ShareTimes(qty: real, n: nat)
    requires n > 0
    ensures Times(Share(qty, n), n as real) == qty
  {
    TimesQuotient(qty, n as real);
  }

  /** A share is more than half a cent exactly when the whole is, for each of its parts. */
  lemma ShareRounds(qty: real, n: nat)
    requires n > 0
    ensures Cents(Share(qty, n)) > 0.0 <==> qty > 0.005 * n as real
  {
    CentsClose(Share(qty, n));
    ShareTimes(qty, n);
    assert Times(0.005, n as real) == 0.005 * n as real;
    hide Cents, Share, Times;
    if Share(qty, n) > 0.005 {
      TimesStrict(0.005, Share(qty, n), n as real);
    } else {
      TimesOrder(Share(qty, n), 0.005, n as real);
    }
  }

  lemma {:induction false} EqualSlices(slices: seq<Slice>, each: real)
    requires forall i :: 0 <= i < |slices| ==> slices[i].quantity == each
    ensures TotalQuantity(slices) == Times(each, |slices| as real)
  {
    if slices == [] {
      TimesZero(each, each, each);
    } else {
      hide Times;
      var n := |slices| - 1;
      EqualSlices(slices[..n], each);
      TimesSum(each, n as real, 1.0);
      TimesUnit(each);
    }
  }

  lemma TimesUnit(x: real)
    ensures Times(x, 1.0) == x
  {
  }

  lemma RoundedTotal(qty: real, n: nat)
    requires n > 0
    ensures -0.005 * n as real <= Times(Cents(Share(qty, n)), n as real) - qty <= 0.005 * n as real
  {
    hide Cents, Share, Times;
    var share, each, k := Share(qty, n), Cents(Share(qty, n)), n as real;
    CentsClose(share);
    ShareTimes(qty, n);
    TimesOrder(each, share + 0.005, k);
    TimesOrder(share - 0.005, each, k);
    TimesShift(share, k);
  }

  lemma TimesShift(x: real, k: real)
    ensures Times(x + 0.005, k) == Times(x, k) + 0.005 * k
    ensures Times(x - 0.005, k) == Times(x, k) - 0.005 * k
  {
  }

  function SliceStart(start: int, i: nat, length: nat): int { start + i * length }

  lemma SliceStartNext(start: int, i: nat, length: nat)
    ensures SliceStart(start, 0, length) == start
    ensures SliceStart(start, i + 1, length) == SliceStart(start, i, length) + length
  {
  }

  lemma LastSliceEnds(start: int, n: nat, limit: nat)
    requires n > 0
    ensures limit / n >= 0 && SliceStart(start, n, limit / n) <= start + limit
    ensures limit >= n ==> limit / n >= 1
  {
    assert limit == n * (limit / n) + limit % n;
    if limit / n < 1 {
      NoWholeShare(limit, n);
    }
  }

  lemma NoWholeShare(limit: nat, n: nat)
    requires n > 0 && limit / n < 1
    ensures limit < n
  {
    var q := limit / n;
    assert q == 0;
    assert limit == n * q + limit % n;
  }

  /** `n` equal slices whose windows tile an interval within the limit and whose quantities add up, to half a cent a slice. */
  ghost predicate Schedule(slices: seq<Slice>, qty: real, n: nat, start: int, limit: nat)
    requires n > 0
  {
    && |slices| == n && Tiles(slices, start, limit / n)
    && slices[n - 1].end <= start + limit
    && (limit >= n ==> limit / n >= 1)
    && -0.005 * n as real <= TotalQuantity(slices) - qty <= 0.005 * n as real
    && forall i :: 0 <= i < n ==> slices[i].quantity == Cents(Share(qty, n))
  }

  /**
   Splits a quantity into `n` equal slices over a time limit; there are none when a slice would round to nothing.
   The windows tile an interval from the start that ends within the limit, and the rounded quantities add up to the
   whole within half a cent per slice.
   */
  method BuildSlices(qty: real, n: nat, start: int, limit: nat) returns (slices: Option<seq<Slice>>)
    requires n > 0
    ensures slices.Some? <==> Cents(Share(qty, n)) > 0.0
    ensures slices.Some? <==> qty > 0.005 * n as real
    ensures slices.Some? ==> Schedule(slices.value, qty, n, start, limit)
  {
    hide Cents, Tiles, Share, SliceStart, TotalQuantity, Times;
    ShareRounds(qty, n);
    LastSliceEnds(start, n, limit);
    var each, length := Cents(Share(qty, n)), limit / n;
    if each <= 0.0 {
      return None;
    }
    var out := [];
    NothingTiled(start, length);
    for i := 0 to n
      invariant |out| == i && Tiles(out, start, length)
      invariant out != [] ==> out[i - 1].end == SliceStart(start, i, length)
      invariant forall j :: 0 <= j < i ==> out[j].quantity == each
    {
      SliceStartNext(start, i, length);
      var s := SliceStart(start, i, length);
      var next := Slice(i, each, s, s + length);
      TilesAppend(out, start, length, next);
      out := out + [next];
    }
    EqualSlices(out, each);
    RoundedTotal(qty, n);
    slices := Some(out);
  }

  lemma NothingTiled(start: int, length: int)
    ensures Tiles([], start, length)
  {
  }

  // ----- plans

  datatype Bias = NoTrade | Hold | LongBias | ShortBias | ExitBias | ReduceRisk | OtherBias

  datatype Direction = LONG | SHORT | FLAT

  datatype Action = BUY | SELL | NOTHING

  datatype Algorithm = MARKET | LIMIT | ICEBERG | VWAP | ADAPTIVE

  datatype ExecutionPlan = ExecutionPlan(
    target: real, algorithm: Algorithm, limitPrice: Option<real>, worstPrice: Option<real>, slices: seq<Slice>)

  datatype PositionPlan = PositionPlan(
    bias: Bias, direction: Direction, base: real, final: real, adjustments: seq<Adjustment>, checks: seq<LimitCheck>,
    veto: bool, action: Action, execution: Option<ExecutionPlan>)

  const NUM_SLICES: nat := 20
  const TIME_LIMIT: nat := 900

  /** Direction of the exposure and order side; nothing to do without a trade or a position to close. */
  function Mapping(bias: Bias, existing: Direction): Option<(Direction, Action)> {
    match bias
    case NoTrade => None
    case Hold => None
    case LongBias => Some((LONG, BUY))
    case ShortBias => Some((SHORT, SELL))
    case ExitBias => if existing == LONG then Some((SHORT, SELL)) else if existing == SHORT then Some((LONG, BUY)) else None
    case ReduceRisk => if existing == LONG then Some((LONG, SELL)) else if existing == SHORT then Some((SHORT, BUY)) else None
    case OtherBias => Some((FLAT, NOTHING))
  }

  predicate Reducing(bias: Bias) { bias == ExitBias || bias == ReduceRisk }

  function ZeroPlan(bias: Bias): PositionPlan {
    PositionPlan(bias, FLAT, 0.0, 0.0, [], [], true, NOTHING, None)
  }

  /** An exit or a reduction is not sized beyond the existing position, when its size is given. */
  function Clamp(bias: Bias, size: real, existingQty: real): real {
    if Reducing(bias) && existingQty > 0.0 && size > existingQty then existingQty else size
  }

  function SelectAlgorithm(bias: Bias, impactBps: real, realizedVol: real, urgent: bool): Algorithm {
    if Reducing(bias) then MARKET
    else if impactBps > 100.0 then ICEBERG
    else if realizedVol > 0.30 then ADAPTIVE
    else if 50.0 <= impactBps then VWAP
    else if urgent then MARKET
    else LIMIT
  }

  /** Only the scheduled algorithms have slices. */
  predicate Scheduled(algorithm: Algorithm) { algorithm == VWAP || algorithm == ADAPTIVE }

  /** A limit beyond the current price by one and a half times the impact; market orders have none. */
  function LimitPrice(direction: Direction, price: real, impactBps: real, algorithm: Algorithm): Option<real> {
    if algorithm == MARKET || price <= 0.0 then None
    else
      var slippage := impactBps / 10000.0 * 1.5;
      Some(Cents(Times(price, if direction == LONG then 1.0 + slippage else 1.0 - slippage)))
  }

  function WorstPrice(direction: Direction, limit: Option<real>, impactBps: real): Option<real> {
    if limit == None || limit.value <= 0.0 then None
    else
      var slippage := (impactBps + 20.0) / 10000.0;
      Some(Cents(Times(limit.value, if direction == LONG then 1.0 + slippage else 1.0 - slippage)))
  }

  /** The records of a plan refuse prices that are not positive, and slices that round to nothing. */
  predicate Recordable(direction: Direction, price: real, qty: real, impactBps: real, algorithm: Algorithm) {
    var limit := LimitPrice(direction, price, impactBps, algorithm);
    var worst := WorstPrice(direction, limit, impactBps);
    && (limit.Some? ==> limit.value > 0.0)
    && (worst.Some? ==> worst.value > 0.0)
    && (Scheduled(algorithm) ==> Cents(Share(qty, NUM_SLICES)) > 0.0)
  }

  // ----- the tables of a plan, told case by case

  /** Each algorithm in exactly its case. */
  predicate AlgorithmFor(bias: Bias, impactBps: real, realizedVol: real, urgent: bool, a: Algorithm) {
    && (a == ICEBERG <==> bias !in {ExitBias, ReduceRisk} && impactBps > 100.0)
    && (a == ADAPTIVE <==> bias !in {ExitBias, ReduceRisk} && impactBps <= 100.0 && realizedVol > 0.30)
    && (a == VWAP <==> bias !in {ExitBias, ReduceRisk} && 50.0 <= impactBps <= 100.0 && realizedVol <= 0.30)
    && (a == LIMIT <==> bias !in {ExitBias, ReduceRisk} && impactBps < 50.0 && realizedVol <= 0.30 && !urgent)
    && (a == MARKET <==> bias in {ExitBias, ReduceRisk} || (impactBps < 50.0 && realizedVol <= 0.30 && urgent))
  }

  /** Nearest to the price moved by a share of it, up for a long side and down for any other. */
  ghost predicate Moved(direction: Direction, price: real, share: real, moved: real) {
    -0.005 <= moved - price * (if direction == LONG then 1.0 + share else 1.0 - share) <= 0.005
  }

  /**
   A limit lies one and a half impacts beyond the price, a worst price the impact and 20 points beyond the limit, both to
   the nearest cent.  So with an impact a long limit is not below any whole cent that the price has reached, a short one
   not above any that it has not passed, and the worst price is not on the near side of the limit.
   */
  ghost predicate PricedFor(direction: Direction, price: real, impactBps: real, a: Algorithm, limit: Option<real>, worst: Option<real>) {
    if a == MARKET || price <= 0.0 then limit == None && worst == None
    else
      && limit.Some? && Moved(direction, price, impactBps * 1.5 / 10000.0, limit.value)
      && (worst == None <==> limit.value <= 0.0)
      && (worst.Some? ==> Moved(direction, limit.value, (impactBps + 20.0) / 10000.0, worst.value))
      && (impactBps >= 0.0 && direction == LONG ==>
            (price * 100.0).Floor as real <= limit.value * 100.0 && (worst.Some? ==> limit.value <= worst.value))
      && (impactBps >= 0.0 && direction != LONG ==>
            limit.value * 100.0 <= -((-price * 100.0).Floor as real) && (worst.Some? ==> worst.value <= limit.value))
  }

  lemma AlgorithmTable(bias: Bias, impactBps: real, realizedVol: real, urgent: bool)
    ensures AlgorithmFor(bias, impactBps, realizedVol, urgent, SelectAlgorithm(bias, impactBps, realizedVol, urgent))
  {
  }

  lemma TimesBeyond(price: real, share: real)
    requires price >= 0.0 && share >= 0.0
    ensures Times(price, 1.0 + share) >= price && Times(price, 1.0 - share) <= price
  {
    assert price * share >= 0.0;
    assert price * (1.0 + share) == price + price * share;
    assert price * (1.0 - share) == price - price * share;
  }

  lemma CentsAbove(exact: real, price: real)
    requires price <= exact
    ensures (price * 100.0).Floor as real <= Cents(exact) * 100.0
  {
    hide Cents;
    CentsBetween(exact, (price * 100.0).Floor);
  }

  lemma CentsBelow(exact: real, price: real)
    requires exact <= price
    ensures Cents(exact) * 100.0 <= -((-price * 100.0).Floor as real)
  {
    hide Cents;
    CentsBetween(exact, -(-price * 100.0).Floor);
  }

  /** A price moved away and rounded, in cents. */
  lemma MovedCents(direction: Direction, price: real, share: real)
    requires price > 0.0
    ensures var moved := Cents(Times(price, if direction == LONG then 1.0 + share else 1.0 - share));
            && Moved(direction, price, share, moved)
            && (share >= 0.0 && direction == LONG ==> (price * 100.0).Floor as real <= moved * 100.0)
            && (share >= 0.0 && direction != LONG ==> moved * 100.0 <= -((-price * 100.0).Floor as real))
  {
    MovedNear(direction, price, share);
    hide Times, Cents, Moved;
    var exact := Times(price, if direction == LONG then 1.0 + share else 1.0 - share);
    if share >= 0.0 {
      TimesBeyond(price, share);
      if direction == LONG {
        CentsAbove(exact, price);
      } else {
        CentsBelow(exact, price);
      }
    }
  }

  lemma MovedNear(direction: Direction, price: real, share: real)
    ensures Moved(direction, price, share, Cents(Times(price, if direction == LONG then 1.0 + share else 1.0 - share)))
  {
    hide Cents;
    var factor := if direction == LONG then 1.0 + share else 1.0 - share;
    CentsClose(Times(price, factor));
    assert Times(price, factor) == price * factor;
  }

  lemma FloorWhole(y: real, n: int)
    requires y == n as real
    ensures y.Floor == n
  {
  }

  /** A whole number of cents has no part of a cent to lose. */
  lemma WholeCents(x: real)
    ensures var limit := Cents(x);
            (limit * 100.0).Floor as real == limit * 100.0 && -((-limit * 100.0).Floor as real) == limit * 100.0
  {
    CentsWhole(x);
    hide Cents, RoundHalfEven;
    var n := RoundHalfEven(x * 100.0);
    FloorWhole(Cents(x) * 100.0, n);
    FloorWhole(-Cents(x) * 100.0, -n);
  }

  lemma PriceTable(direction: Direction, price: real, impactBps: real, a: Algorithm)
    ensures var limit := LimitPrice(direction, price, impactBps, a);
            PricedFor(direction, price, impactBps, a, limit, WorstPrice(direction, limit, impactBps))
  {
    if a != MARKET && price > 0.0 {
      var share := impactBps / 10000.0 * 1.5;
      assert share == impactBps * 1.5 / 10000.0;
      MovedCents(direction, price, share);
      var factor := if direction == LONG then 1.0 + share else 1.0 - share;
      WholeCents(Times(price, factor));
      hide Cents, Times, Moved;
      var limit := Cents(Times(price, factor));
      assert LimitPrice(direction, price, impactBps, a) == Some(limit);
      if limit > 0.0 {
        MovedCents(direction, limit, (impactBps + 20.0) / 10000.0);
      }
    }
  }

  lemma CentsMonotone(x: real, y: real)
    requires x <= y
    ensures Cents(x) <= Cents(y)
  {
    RoundMonotone(x * 100.0, y * 100.0);
  }

  lemma LimitWithoutImpact(direction: Direction, price: real)
    requires price > 0.0
    ensures LimitPrice(direction, price, 0.0, LIMIT) == Some(Cents(price))
  {
    assert Times(price, 1.0) == price;
  }

  lemma LimitBeyond(direction: Direction, price: real, impactBps: real)
    requires price > 0.0 && impactBps >= 0.0
    ensures var limit := LimitPrice(direction, price, impactBps, LIMIT);
            limit.Some? && if direction == LONG then Cents(price) <= limit.value else limit.value <= Cents(price)
  {
    hide Cents, Times;
    var share := impactBps / 10000.0 * 1.5;
    TimesBeyond(price, share);
    if direction == LONG {
      CentsMonotone(price, Times(price, 1.0 + share));
    } else {
      CentsMonotone(Times(price, 1.0 - share), price);
    }
  }

  /**
   Whatever the impact, limits are on the far side of the price, exactly when rounding the price to cents does not bring it
   to the near side.
   */
  lemma LimitsBeyondIff(direction: Direction, price: real)
    requires price > 0.0
    ensures (forall impactBps: real :: impactBps >= 0.0 ==>
               var limit := LimitPrice(direction, price, impactBps, LIMIT);
               limit.Some? && if direction == LONG then price <= limit.value else limit.value <= price)
            <==> if direction == LONG then price <= Cents(price) else Cents(price) <= price
  {
    hide Cents, LimitPrice;
    LimitWithoutImpact(direction, price);
    forall impactBps: real | impactBps >= 0.0
      ensures var limit := LimitPrice(direction, price, impactBps, LIMIT);
              limit.Some? && if direction == LONG then Cents(price) <= limit.value else limit.value <= Cents(price)
    {
      LimitBeyond(direction, price, impactBps);
    }
  }

  /** A long limit can be below the price: without an impact, 10.004 becomes 10. */
  lemma LongLimitBelowPrice()
    ensures LimitPrice(LONG, 10.004, 0.0, LIMIT) == Some(10.0)
  {
    LimitWithoutImpact(LONG, 10.004);
    assert (10.004 * 100.0).Floor == 1000;
  }

  /** What an execution plan for a quantity has to show. */
  ghost predicate Executable(e: ExecutionPlan, qty: real, start: int) {
    && e.target == qty
    && (e.limitPrice == None <== e.algorithm == MARKET)
    && (e.limitPrice.Some? ==> e.limitPrice.value > 0.0) && (e.worstPrice.Some? ==> e.worstPrice.value > 0.0)
    && if Scheduled(e.algorithm) then Schedule(e.slices, qty, NUM_SLICES, start, TIME_LIMIT) else e.slices == []
  }

  /** The execution plan of a quantity; none exactly when its records refuse a price or a slice. */
  method MakePlan(bias: Bias, direction: Direction, qty: real, price: real, impactBps: real, realizedVol: real, urgent: bool, start: int)
    returns (plan: Option<ExecutionPlan>)
    ensures plan.Some? <==> Recordable(direction, price, qty, impactBps, SelectAlgorithm(bias, impactBps, realizedVol, urgent))
    ensures plan.Some? ==>
              && Executable(plan.value, qty, start) && plan.value.algorithm == SelectAlgorithm(bias, impactBps, realizedVol, urgent)
              && plan.value.limitPrice == LimitPrice(direction, price, impactBps, plan.value.algorithm)
              && plan.value.worstPrice == WorstPrice(direction, plan.value.limitPrice, impactBps)
              && AlgorithmFor(bias, impactBps, realizedVol, urgent, plan.value.algorithm)
              && PricedFor(direction, price, impactBps, plan.value.algorithm, plan.value.limitPrice, plan.value.worstPrice)
  {
    AlgorithmTable(bias, impactBps, realizedVol, urgent);
    PriceTable(direction, price, impactBps, SelectAlgorithm(bias, impactBps, realizedVol, urgent));
    hide PricedFor, AlgorithmFor;
    hide Cents, Share, Schedule;
    var algorithm := SelectAlgorithm(bias, impactBps, realizedVol, urgent);
    var limit := LimitPrice(direction, price, impactBps, algorithm);
    var slices: seq<Slice> := [];
    if !(algorithm == MARKET || algorithm == LIMIT || algorithm == ICEBERG) {
      var built := BuildSlices(qty, NUM_SLICES, start, TIME_LIMIT);
      if built == None {
        return None;
      }
      slices := built.value;
    }
    var worst := WorstPrice(direction, limit, impactBps);
    if (limit.Some? && limit.value <= 0.0) || (worst.Some? && worst.value <= 0.0) {
      return None;
    }
    plan := Some(ExecutionPlan(qty, algorithm, limit, worst, slices));
  }

  /** What a plan with something to trade has to show. */
  ghost predicate Planned(plan: PositionPlan, existing: Direction, existingQty: real, size: real, filters: seq<Filter>) {
    && size > 0.0 && Mapping(plan.bias, existing) == Some((plan.direction, plan.action))
    && plan.base == Clamp(plan.bias, size, existingQty)
    && plan.final == (if plan.veto then 0.0 else Entering(filters, plan.base, |filters|))
    && |plan.checks| == |filters| && Checked(plan.checks, filters, plan.base)
    && plan.adjustments == Trail(filters, plan.base, |filters|)
    && Telescopes(plan.adjustments, plan.base, Entering(filters, plan.base, |filters|))
    && (plan.veto <==> SomeFails(filters, plan.base, |filters|) || Entering(filters, plan.base, |filters|) <= 0.0)
  }

  // ----- the outcome of a decision, told case by case

  /** Hold and no-trade never trade; an exit or a reduction needs a long or short position. */
  predicate MayTrade(bias: Bias, existing: Direction) {
    bias != NoTrade && bias != Hold && (bias in {ExitBias, ReduceRisk} ==> existing == LONG || existing == SHORT)
  }

  /** Direction of the exposure and side of the order: openings follow the bias, closings go against the position. */
  predicate OnSide(bias: Bias, existing: Direction, direction: Direction, action: Action) {
    && (bias == LongBias ==> direction == LONG && action == BUY)
    && (bias == ShortBias ==> direction == SHORT && action == SELL)
    && (bias == ExitBias && existing == LONG ==> direction == SHORT && action == SELL)
    && (bias == ExitBias && existing == SHORT ==> direction == LONG && action == BUY)
    && (bias == ReduceRisk && existing == LONG ==> direction == LONG && action == SELL)
    && (bias == ReduceRisk && existing == SHORT ==> direction == SHORT && action == BUY)
    && (bias == OtherBias ==> direction == FLAT && action == NOTHING)
  }

  /** An opening keeps the chosen size; a closing takes the smaller of size and position, when the position is given. */
  predicate Sized(bias: Bias, size: real, existingQty: real, base: real) {
    if bias in {ExitBias, ReduceRisk} && existingQty > 0.0 then base <= size && base <= existingQty && (base == size || base == existingQty)
    else base == size
  }

  predicate IsZeroPlan(plan: PositionPlan, bias: Bias) {
    && plan.bias == bias && plan.direction == FLAT && plan.action == NOTHING && plan.veto
    && plan.base == 0.0 && plan.final == 0.0 && plan.adjustments == [] && plan.checks == [] && plan.execution == None
  }

  /** The plan of a decision that may trade: its side, its size before and after the filters, and its veto. */
  ghost predicate Told(plan: PositionPlan, bias: Bias, existing: Direction, existingQty: real, calculators: seq<Sizing>, filters: seq<Filter>) {
    && plan.bias == bias && OnSide(bias, existing, plan.direction, plan.action)
    && (exists i: nat :: IsChoice(calculators, i) && Sized(bias, calculators[i].qty, existingQty, plan.base))
    && |plan.checks| == |filters|
    && exists left: real ::
         && Handed(plan.checks, filters, plan.base, left) && Listed(plan.adjustments, plan.checks, filters, |filters|)
         && plan.final == (if plan.veto then 0.0 else left)
         && (plan.veto <==> left <= 0.0 || exists i: nat :: Failing(plan.checks, filters, i))
  }

  lemma MappingTable(bias: Bias, existing: Direction)
    ensures Mapping(bias, existing).Some? <==> MayTrade(bias, existing)
    ensures Mapping(bias, existing).Some? ==> OnSide(bias, existing, Mapping(bias, existing).value.0, Mapping(bias, existing).value.1)
  {
  }

  lemma SomeChoice(sizes: seq<Sizing>) returns (i: nat)
    requires Chosen(sizes).Some?
    ensures IsChoice(sizes, i) && Chosen(sizes) == Some(sizes[i])
  {
    if j: nat :| j < |sizes| && sizes[j].method_ == "volatility_targeting" && sizes[j].qty > 0.0 {
      i := FirstSuch(sizes, j, true);
    } else {
      ChosenPositive(sizes);
      var j :| 0 <= j < |sizes| && sizes[j] == Chosen(sizes).value;
      i := FirstSuch(sizes, j, false);
    }
    ChosenAt(sizes, i);
  }

  lemma {:induction false} FirstSuch(sizes: seq<Sizing>, j: nat, targeting: bool) returns (i: nat)
    requires j < |sizes| && sizes[j].qty > 0.0 && (targeting ==> sizes[j].method_ == "volatility_targeting")
    ensures i <= j && sizes[i].qty > 0.0 && (targeting ==> sizes[i].method_ == "volatility_targeting")
    ensures forall k :: 0 <= k < i && sizes[k].qty > 0.0 ==> targeting && sizes[k].method_ != "volatility_targeting"
  {
    if k: nat :| k < j && sizes[k].qty > 0.0 && (targeting ==> sizes[k].method_ == "volatility_targeting") {
      i := FirstSuch(sizes, k, targeting);
    } else {
      i := j;
    }
  }

  lemma PlannedTold(plan: PositionPlan, existing: Direction, existingQty: real, calculators: seq<Sizing>, filters: seq<Filter>)
    requires Chosen(calculators).Some?
    requires Planned(plan, existing, existingQty, Chosen(calculators).value.qty, filters)
    ensures Told(plan, plan.bias, existing, existingQty, calculators, filters)
  {
    hide Entering, Trail, Telescopes, Checked, SomeFails, Chosen, IsChoice, Handed, Listed, Failing;
    MappingTable(plan.bias, existing);
    var i := SomeChoice(calculators);
    assert Sized(plan.bias, calculators[i].qty, existingQty, plan.base);
    var left := Entering(filters, plan.base, |filters|);
    CheckedHanded(plan.checks, filters, plan.base);
    TrailListed(filters, plan.base, plan.checks, |filters|);
    FailsAtCheck(plan.checks, filters, plan.base);
    assert Handed(plan.checks, filters, plan.base, left);
  }

  /** No plan can be recorded: the chain goes negative, or what is left to trade is refused. */
  ghost predicate Refused(filters: seq<Filter>, base: real, direction: Direction, price: real, impactBps: real, algorithm: Algorithm) {
    || GoesNegative(filters, base, |filters|)
    || (&& !SomeFails(filters, base, |filters|) && Entering(filters, base, |filters|) > 0.0
        && !Recordable(direction, price, Entering(filters, base, |filters|), impactBps, algorithm))
  }

  /**
   From a decision to a plan.  A plan trades exactly when it is not vetoed, exactly then it has an execution plan, and
   that one is for the plan's quantity.  Nothing is returned exactly when a record refuses a quantity or a price.
   */
  method Calculate(bias: Bias, existing: Direction, existingQty: real, calculators: seq<Sizing>, filters: seq<Filter>,
                   price: real, impactBps: real, realizedVol: real, urgent: bool, start: int)
    returns (r: Option<PositionPlan>)
    ensures r.Some? ==> (r.value.final > 0.0 <==> !r.value.veto) && (r.value.final > 0.0 <==> r.value.execution.Some?)
    ensures r.Some? && r.value.execution.Some? ==> Executable(r.value.execution.value, r.value.final, start)
    ensures !MayTrade(bias, existing) || (forall i :: 0 <= i < |calculators| ==> calculators[i].qty <= 0.0) ==>
              r.Some? && IsZeroPlan(r.value, bias)
    ensures MayTrade(bias, existing) && (exists i :: 0 <= i < |calculators| && calculators[i].qty > 0.0) && r.Some? ==>
              Told(r.value, bias, existing, existingQty, calculators, filters)
    ensures r.Some? && r.value.execution.Some? ==>
              var e := r.value.execution.value;
              && AlgorithmFor(bias, impactBps, realizedVol, urgent, e.algorithm)
              && PricedFor(r.value.direction, price, impactBps, e.algorithm, e.limitPrice, e.worstPrice)
    ensures Mapping(bias, existing) == None || Chosen(calculators) == None ==> r == Some(ZeroPlan(bias))
    ensures Mapping(bias, existing).Some? && Chosen(calculators).Some? && r.Some? ==>
              r.value.bias == bias && Planned(r.value, existing, existingQty, Chosen(calculators).value.qty, filters)
    ensures r == None <==>
              && Mapping(bias, existing).Some? && Chosen(calculators).Some?
              && Refused(filters, Clamp(bias, Chosen(calculators).value.qty, existingQty), Mapping(bias, existing).value.0,
                         price, impactBps, SelectAlgorithm(bias, impactBps, realizedVol, urgent))
  {
    hide Telescopes, Trail, Checked, SomeFails, GoesNegative, Entering, Executable, Recordable;
    hide Told, AlgorithmFor, PricedFor, Mapping, IsChoice, Chosen, OnSide, SelectAlgorithm;
    MappingTable(bias, existing);
    var mapping := Mapping(bias, existing);
    if mapping == None {
      return Some(ZeroPlan(bias));
    }
    var (direction, action) := mapping.value;
    ChosenPositive(calculators);
    var sizing := RunSizingChain(calculators);
    if sizing.qty <= 0.0 {
      return Some(ZeroPlan(bias));
    }
    var qty := Clamp(bias, sizing.qty, existingQty);
    var run := RunFilters(filters, qty);
    if run == None {
      return None;
    }
    var FilterRun(filtered, adjustments, checks, veto, _) := run.value;
    var final := if veto then 0.0 else filtered;
    var execution: Option<ExecutionPlan> := None;
    if final > 0.0 {
      execution := MakePlan(bias, direction, final, price, impactBps, realizedVol, urgent, start);
      if execution == None {
        return None;
      }
    }
    var plan := PositionPlan(bias, direction, qty, final, adjustments, checks, veto, action, execution);
    PlannedTold(plan, existing, existingQty, calculators, filters);
    r := Some(plan);
  }

  // ----- executing a plan on the simulated position

  /** The supplied side and size are those of the position. */
  ghost predicate Matches(p: Position, existing: Direction, existingQty: real) {
    existingQty == Abs(p.net) && existing == SideOf(p)
  }

  predicate Executes(f: Fill, plan: PositionPlan) {
    f.qty == plan.final && ((plan.action == BUY && f.side == Buy) || (plan.action == SELL && f.side == Sell))
  }

  /**
   With filters that lower or keep what reaches them and a position described as it is, executing an exit or a
   reduction shrinks the position by the plan's quantity and never crosses zero.
   */
  lemma ReducingPlanShrinks(plan: PositionPlan, p: Position, existing: Direction, existingQty: real, size: real, filters: seq<Filter>, f: Fill)
    requires Planned(plan, existing, existingQty, size, filters) && Reducing(plan.bias) && plan.final > 0.0
    requires KeepsOrLowers(filters, plan.base) && Matches(p, existing, existingQty) && Executes(f, plan)
    ensures Abs(Fills.Apply(p, f).net) == Abs(p.net) - plan.final
    ensures p.net > 0.0 ==> Fills.Apply(p, f).net >= 0.0
    ensures p.net < 0.0 ==> Fills.Apply(p, f).net <= 0.0
  {
    hide KeepsOrLowers, Entering, Checked, Trail, Telescopes, SomeFails, AverageCost;
    NeverAboveEntering(filters, plan.base, |filters|);
    OpposingFillShrinks(p, f);
  }

  /** Executing an opening plan moves the position in the direction of the bias by the plan's quantity. */
  lemma OpeningPlanMoves(plan: PositionPlan, p: Position, existing: Direction, existingQty: real, size: real, filters: seq<Filter>, f: Fill)
    requires Planned(plan, existing, existingQty, size, filters) && plan.final > 0.0 && Executes(f, plan)
    ensures plan.bias == LongBias ==> Fills.Apply(p, f).net == p.net + plan.final
    ensures plan.bias == ShortBias ==> Fills.Apply(p, f).net == p.net - plan.final
  {
    hide Entering, Checked, Trail, Telescopes, SomeFails, AverageCost;
  }

  // ----- exactly when exits and reductions are safe with the standard filters

  function SideOf(p: Position): Direction {
    if p.net > 0.0 then LONG else if p.net < 0.0 then SHORT else FLAT
  }

  /** The fill takes its quantity off the position and does not cross zero. */
  predicate Shrinks(p: Position, f: Fill)
    requires f.qty > 0.0
  {
    var net := Fills.Apply(p, f).net;
    Abs(net) == Abs(p.net) - f.qty && (p.net > 0.0 ==> net >= 0.0) && (p.net < 0.0 ==> net <= 0.0)
  }

  /** Started within a bound close to the grid, the standard chain stays within it. */
  lemma {:induction false} StandardNeverAbove(l: Limits, m: Market, qty: real, bound: real, n: nat)
    requires Sensible(l, m) && 0.0 < qty <= bound && Excess(bound) <= 0.5 && n <= |StandardFilters(l, m)|
    ensures 0.0 <= Entering(StandardFilters(l, m), qty, n) <= bound
  {
    hide StandardFilters, Excess;
    SevenFilters(l, m);
    if n > 0 {
      StandardNeverAbove(l, m, qty, bound, n - 1);
      var before := Entering(StandardFilters(l, m), qty, n - 1);
      if before > 0.0 {
        StandardWithin(l, m, n - 1, before, bound);
      }
    }
  }

  /** A position close to the grid is safe: every exit or reduction shrinks it, in every market and under every limit. */
  lemma ReductionSafe(p: Position, l: Limits, m: Market, plan: PositionPlan, size: real, f: Fill)
    requires Sensible(l, m) && p.net != 0.0 && Excess(Abs(p.net)) <= 0.5
    requires Planned(plan, SideOf(p), Abs(p.net), size, StandardFilters(l, m))
    requires Reducing(plan.bias) && plan.final > 0.0 && Executes(f, plan)
    ensures Shrinks(p, f)
  {
    hide StandardFilters, Excess, Entering, Checked, Trail, Telescopes, SomeFails, AverageCost;
    StandardNeverAbove(l, m, plan.base, Abs(p.net), |StandardFilters(l, m)|);
    OpposingFillShrinks(p, f);
  }

  /** The plan that the engine makes of a chosen size. */
  ghost function PlanOf(bias: Bias, existing: Direction, existingQty: real, size: real, filters: seq<Filter>): PositionPlan
    requires Mapping(bias, existing).Some?
  {
    var base := Clamp(bias, size, existingQty);
    var left := Entering(filters, base, |filters|);
    var veto := SomeFails(filters, base, |filters|) || left <= 0.0;
    PositionPlan(
      bias, Mapping(bias, existing).value.0, base, if veto then 0.0 else left, Trail(filters, base, |filters|),
      AllChecks(filters, base), veto, Mapping(bias, existing).value.1,
      if veto then None else Some(ExecutionPlan(left, MARKET, None, None, [])))
  }

  ghost function AllChecks(filters: seq<Filter>, qty: real): (checks: seq<LimitCheck>)
    ensures |checks| == |filters| && Checked(checks, filters, qty)
  {
    seq(|filters|, i requires 0 <= i < |filters| =>
      var result := filters[i].Apply(Entering(filters, qty, i));
      LimitCheck(filters[i].name, qty, Entering(filters, qty, i), result.limitCheckPassed, result.mode))
  }

  lemma PlanOfPlanned(bias: Bias, existing: Direction, existingQty: real, size: real, filters: seq<Filter>)
    requires Mapping(bias, existing).Some? && size > 0.0
    ensures Planned(PlanOf(bias, existing, existingQty, size, filters), existing, existingQty, size, filters)
  {
    hide Entering, Trail, Telescopes, Checked, SomeFails;
    TrailTelescopes(filters, Clamp(bias, size, existingQty), |filters|);
  }

  /**
   Any other position is not: for every exit or reduction of the whole of it there are a market, limits, a plan that the
   engine makes without refusing anything, and a fill of that plan that crosses zero.
   */
  lemma ExitCanCrossZero(p: Position, bias: Bias) returns (l: Limits, m: Market, plan: PositionPlan, f: Fill)
    requires p.net != 0.0 && Excess(Abs(p.net)) > 0.5 && Reducing(bias)
    ensures Sensible(l, m) && Planned(plan, SideOf(p), Abs(p.net), Abs(p.net), StandardFilters(l, m))
    ensures plan.bias == bias && plan.final > Abs(p.net) && Executes(f, plan)
    ensures forall price: real, impactBps: real ::
              !Refused(StandardFilters(l, m), Abs(p.net), plan.direction, price, impactBps, MARKET)
    ensures p.net > 0.0 ==> Fills.Apply(p, f).net < 0.0
    ensures p.net < 0.0 ==> Fills.Apply(p, f).net > 0.0
  {
    hide StandardFilters, Excess, Entering, Checked, Trail, Telescopes, SomeFails, GoesNegative, AverageCost;
    var qty := Abs(p.net);
    l, m := ExitRaised(qty);
    var filters := StandardFilters(l, m);
    plan := PlanOf(bias, SideOf(p), qty, qty, filters);
    PlanOfPlanned(bias, SideOf(p), qty, qty, filters);
    f := Fill("", "", "", if p.net > 0.0 then Sell else Buy, plan.final, 0, 0);
  }

  ghost predicate ReductionsSafe(p: Position) {
    forall l: Limits, m: Market, plan: PositionPlan, size: real, f: Fill ::
      && Sensible(l, m) && Planned(plan, SideOf(p), Abs(p.net), size, StandardFilters(l, m))
      && Reducing(plan.bias) && plan.final > 0.0 && Executes(f, plan)
      ==> Shrinks(p, f)
  }

  /**
   Exits and reductions of a position are safe in all markets and under all limits exactly when its size is at most half a
   millionth above the six-decimal grid.
   */
  lemma ReductionsSafeIff(p: Position)
    requires p.net != 0.0
    ensures ReductionsSafe(p) <==> Excess(Abs(p.net)) <= 0.5
  {
    hide StandardFilters, Excess, Planned, Sensible, AverageCost;
    if Excess(Abs(p.net)) <= 0.5 {
      forall l: Limits, m: Market, plan: PositionPlan, size: real, f: Fill |
        Sensible(l, m) && Planned(plan, SideOf(p), Abs(p.net), size, StandardFilters(l, m))
        && Reducing(plan.bias) && plan.final > 0.0 && Executes(f, plan)
        ensures Shrinks(p, f)
      {
        ReductionSafe(p, l, m, plan, size, f);
      }
    } else {
      var l, m, plan, f := ExitCanCrossZero(p, ExitBias);
      assert !Shrinks(p, f);
    }
  }

  lemma RaisedPasses(l: Limits, m: Market, qty: real)
    requires CorrelationLimit(l, m, qty).adjustedQty > qty > 0.0
    ensures CorrelationLimit(l, m, qty).passed
  {
    hide ReductionRatio, Reduced;
  }

  lemma ExitRaised(qty: real) returns (l: Limits, m: Market)
    requires qty > 0.0 && Excess(qty) > 0.5
    ensures Sensible(l, m) && |StandardFilters(l, m)| == 7
    ensures Entering(StandardFilters(l, m), qty, 7) > qty && !SomeFails(StandardFilters(l, m), qty, 7)
    ensures !GoesNegative(StandardFilters(l, m), qty, 7)
  {
    hide Excess;
    l, m := CorrelationRaises(qty);
    var filters, raised := StandardFilters(l, m), CorrelationLimit(l, m, qty).adjustedQty;
    OnlyCorrelationActs(l, m, qty, raised);
    RaisedPasses(l, m, qty);
    assert Entering(filters, qty, 0) == qty;
    assert Entering(filters, qty, 1) == qty;
    assert Entering(filters, qty, 2) == qty;
    assert Entering(filters, qty, 3) == qty;
    assert Entering(filters, qty, 4) == raised;
    assert Entering(filters, qty, 5) == raised;
    assert Entering(filters, qty, 6) == raised;
  }

  lemma OnlyCorrelationActs(l: Limits, m: Market, qty: real, raised: real)
    requires Sensible(l, m) && 0.0 < qty < raised
    requires m.equity * l.maxPositionPct == qty && m.price == 1.0 && m.avgEntryPrice == m.dailyLossPct == m.drawdownPct == m.adv == 0.0
    requires l.maxDrawdownPct > 0.0
    ensures PositionLimit(l, m, qty) == LossLimit(l, m, qty) == DrawdownLimit(l, m, qty) == Passing(qty)
    ensures LiquidityCap(l, m, raised) == ParticipationRate(m, raised) == SlippageLimit(l, raised) == Passing(raised)
  {
  }
}
