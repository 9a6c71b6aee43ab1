/**
 Fills and what they make of a position: `_build_fill`, the arithmetic of `_update_position`, and the sums and
 bounds that hold over any sequence of fills.  Prices and fees are counted in steps of 0.0001.
 */
module Fills {
  import opened Common

  datatype Side = Buy | Sell

  datatype Fill = Fill(recordId: string, orderId: string, symbol: string, side: Side, qty: real, price: int, fees: int)

  /** A metadata entry: missing, a number, or text that is not one. */
  datatype Meta = Missing | Number(value: real) | Garbage

  datatype Intent = Intent(
    symbol: string, side: Side, quantity: real, price: Option<real>, blocked: bool,
    arrivalPrice: Meta, referencePrice: Meta, slippageBps: Meta, feeBps: Meta)

  // ----- rounding to the 0.0001 grid

  /** The nearest whole step; a tie goes to the even one. */
  function RoundHalfEven(x: real): (n: int)
    ensures -0.5 <= x - n as real <= 0.5
    ensures x - n as real == 0.5 || x - n as real == -0.5 ==> n % 2 == 0
  {
    var down := x.Floor;
    var part := x - down as real;
    if part < 0.5 then down
    else if part > 0.5 then down + 1
    else if down % 2 == 0 then down else down + 1
  }

  lemma NoHalfStep(k: int)
    requires k as real <= 0.5
    ensures k <= 0
  {
  }

  /** Rounding leaves whole steps alone and never crosses one. */
  lemma RoundAtLeast(x: real, lo: int)
    requires lo as real <= x
    ensures lo <= RoundHalfEven(x)
  {
    NoHalfStep(lo - RoundHalfEven(x));
  }

  lemma RoundAtMost(x: real, hi: int)
    requires x <= hi as real
    ensures RoundHalfEven(x) <= hi
  {
    NoHalfStep(RoundHalfEven(x) - hi);
  }

  // ----- building a fill

  function Or(m: Meta, default: real): Option<real> {
    match m
    case Missing => Some(default)
    case Number(x) => Some(x)
    case Garbage => None
  }

  /** A price of zero counts as no price. */
  function ArrivalPrice(intent: Intent): Option<real> {
    if intent.price.Some? && intent.price.value != 0.0 then intent.price
    else if intent.arrivalPrice != Missing then Or(intent.arrivalPrice, 100.0)
    else Or(intent.referencePrice, 100.0)
  }

  /** The price after slippage, in steps of 0.0001: up for a buy, down for a sell. */
  function SlippedSteps(arrival: real, slippageBps: real, side: Side): real {
    var step := slippageBps / 10000.0;
    var multiplier := 1.0 + if side == Buy then step else -step;
    arrival * multiplier * 10000.0
  }

  /** The fill of an intent; none when its metadata does not parse. */
  function BuildFill(intent: Intent, orderId: string, recordId: string): (r: Option<Fill>)
    ensures r.Some? ==> r.value.orderId == orderId && r.value.qty == intent.quantity && r.value.recordId == recordId
    ensures r.Some? ==> r.value.symbol == intent.symbol && r.value.side == intent.side
  {
    var arrival, slippage, fee := ArrivalPrice(intent), Or(intent.slippageBps, 1.0), Or(intent.feeBps, 1.0);
    if arrival == None || slippage == None || fee == None then None
    else
      var price := RoundHalfEven(SlippedSteps(arrival.value, slippage.value, intent.side));
      var fees := RoundHalfEven(price as real * intent.quantity * fee.value / 10000.0);
      Some(Fill(recordId, orderId, intent.symbol, intent.side, intent.quantity, price, fees))
  }

  // ----- a fill, told from its intent

  /** The metadata that is needed does not parse. */
  predicate Unreadable(intent: Intent) {
    || intent.slippageBps == Garbage || intent.feeBps == Garbage
    || ((intent.price == None || intent.price == Some(0.0))
        && (intent.arrivalPrice == Garbage || (intent.arrivalPrice == Missing && intent.referencePrice == Garbage)))
  }

  /** The price before slippage: the intent's own, else the arrival price, else the reference price, else 100. */
  predicate ArrivesAt(intent: Intent, a: real) {
    if intent.price.Some? && intent.price.value != 0.0 then a == intent.price.value
    else if intent.arrivalPrice != Missing then intent.arrivalPrice == Number(a)
    else if intent.referencePrice != Missing then intent.referencePrice == Number(a)
    else a == 100.0
  }

  /** A rate in basis points, one by default. */
  predicate Rate(m: Meta, bps: real) { if m == Missing then bps == 1.0 else m == Number(bps) }

  /** Price and fees are the exact ones to the nearest step: the price moved against the intent by the slippage rate. */
  ghost predicate FillsIntent(intent: Intent, f: Fill) {
    && f.symbol == intent.symbol && f.side == intent.side && f.qty == intent.quantity
    && exists a: real, slip: real, fee: real ::
         && ArrivesAt(intent, a) && Rate(intent.slippageBps, slip) && Rate(intent.feeBps, fee)
         && (var exact := a * (if intent.side == Buy then 1.0 + slip / 10000.0 else 1.0 - slip / 10000.0) * 10000.0;
             -0.5 <= exact - f.price as real <= 0.5)
         && (var exact := f.price as real * f.qty * fee / 10000.0;
             -0.5 <= exact - f.fees as real <= 0.5)
  }

  lemma BuildFillExact(intent: Intent, orderId: string, recordId: string)
    ensures BuildFill(intent, orderId, recordId) == None <==> Unreadable(intent)
    ensures var r := BuildFill(intent, orderId, recordId);
            r.Some? ==> FillsIntent(intent, r.value) && r.value.orderId == orderId && r.value.recordId == recordId
  {
    hide RoundHalfEven;
    if BuildFill(intent, orderId, recordId).Some? {
      var a, slip, fee := ArrivalPrice(intent).value, Or(intent.slippageBps, 1.0).value, Or(intent.feeBps, 1.0).value;
      assert ArrivesAt(intent, a) && Rate(intent.slippageBps, slip) && Rate(intent.feeBps, fee);
      SlippedExact(a, slip, intent.side);
    }
  }

  lemma SlippedExact(a: real, slip: real, side: Side)
    ensures SlippedSteps(a, slip, side) ==
            a * (if side == Buy then 1.0 + slip / 10000.0 else 1.0 - slip / 10000.0) * 10000.0
  {
  }

  lemma RoundMonotone(x: real, y: real)
    requires x <= y
    ensures RoundHalfEven(x) <= RoundHalfEven(y)
  {
    if x.Floor < y.Floor {
      RoundAtMost(x, x.Floor + 1);
      RoundAtLeast(y, y.Floor);
    }
  }

  /** Slippage never helps: no buy fills below the rounded arrival price and no sell above it. */
  lemma SlippageIsAdverse(intent: Intent, orderId: string, recordId: string)
    requires BuildFill(intent, orderId, recordId).Some?
    requires ArrivalPrice(intent).value >= 0.0 && Or(intent.slippageBps, 1.0).value >= 0.0
    ensures var price := BuildFill(intent, orderId, recordId).value.price;
            var arrival := RoundHalfEven(ArrivalPrice(intent).value * 10000.0);
            if intent.side == Buy then price >= arrival else price <= arrival
  {
    hide RoundHalfEven, SlippedSteps;
    var arrival, slippage := ArrivalPrice(intent).value, Or(intent.slippageBps, 1.0).value;
    SlippedOneWay(arrival, slippage, intent.side);
    var steps := SlippedSteps(arrival, slippage, intent.side);
    if intent.side == Buy {
      RoundMonotone(arrival * 10000.0, steps);
    } else {
      RoundMonotone(steps, arrival * 10000.0);
    }
  }

  lemma SlippedOneWay(a: real, slippage: real, side: Side)
    requires a >= 0.0 && slippage >= 0.0
    ensures side == Buy ==> SlippedSteps(a, slippage, side) >= a * 10000.0
    ensures side == Sell ==> SlippedSteps(a, slippage, side) <= a * 10000.0
  {
    var step := slippage / 10000.0;
    var multiplier := 1.0 + if side == Buy then step else -step;
    AdverseProduct(a, step, multiplier);
  }

  lemma AdverseProduct(a: real, step: real, m: real)
    requires a >= 0.0 && step >= 0.0
    ensures m == 1.0 + step ==> a * m >= a
    ensures m == 1.0 - step ==> a * m <= a
  {
    assert a * step >= 0.0;
    if m == 1.0 + step {
      assert a * m == a + a * step;
    }
    if m == 1.0 - step {
      assert a * m == a - a * step;
    }
  }

  // ----- positions

  datatype Position = Position(net: real, avgCost: int, traded: real, fees: int, exposure: real)

  const FLAT := Position(0.0, 0, 0.0, 0, 0.0)

  function Abs(x: real): real { if x < 0.0 then -x else x }

  function Signed(f: Fill): real { if f.side == Buy then f.qty else -f.qty }

  function Times(x: real, y: real): real { x * y }

  function WeightedAverage(a: real, w: real, b: real, v: real): real
    requires w >= 0.0 && v > 0.0
  {
    (Times(a, w) + Times(b, v)) / (w + v)
  }

  /** The new average: the old one weighted by the old size, the fill price by its quantity, then rounded. */
  function AverageCost(avg: int, size: real, price: int, qty: real): int
    requires size >= 0.0 && qty > 0.0
  {
    RoundHalfEven(WeightedAverage(avg as real, size, price as real, qty))
  }

  /** One fill; the average stays as it is when the position goes flat. */
  function Apply(p: Position, f: Fill): Position
    requires f.qty > 0.0
  {
    var net := p.net + Signed(f);
    Position(
      net,
      if net != 0.0 then AverageCost(p.avgCost, Abs(p.net), f.price, f.qty) else p.avgCost,
      p.traded + f.qty,
      p.fees + f.fees,
      Abs(net * f.price as real))
  }

  /**
   What a fill does to a position: the size moves by it, the sums grow, and unless the position goes flat the average is,
   to the nearest step, that of the old average over the old size and the fill price over the fill.
   */
  ghost predicate Averages(before: Position, f: Fill, after: Position) {
    && after.net == (if f.side == Buy then before.net + f.qty else before.net - f.qty)
    && after.traded == before.traded + f.qty && after.fees == before.fees + f.fees
    && (var exposure := after.net * f.price as real;
        after.exposure == if exposure < 0.0 then -exposure else exposure)
    && (after.net == 0.0 ==> after.avgCost == before.avgCost)
    && (after.net != 0.0 ==>
          var size := if before.net < 0.0 then -before.net else before.net;
          var exact := before.avgCost as real * size + f.price as real * f.qty;
          -0.5 * (size + f.qty) <= after.avgCost as real * (size + f.qty) - exact <= 0.5 * (size + f.qty))
  }

  lemma ApplyAverages(p: Position, f: Fill)
    requires f.qty > 0.0
    ensures Averages(p, f, Apply(p, f))
  {
    hide RoundHalfEven, WeightedAverage;
    var size := Abs(p.net);
    NearestAverage(p.avgCost as real, size, f.price as real, f.qty, AverageCost(p.avgCost, size, f.price, f.qty));
  }

  lemma NearestAverage(a: real, w: real, b: real, v: real, n: int)
    requires w >= 0.0 && v > 0.0 && n == RoundHalfEven(WeightedAverage(a, w, b, v))
    ensures -0.5 * (w + v) <= n as real * (w + v) - (a * w + b * v) <= 0.5 * (w + v)
  {
    var exact, total := Times(a, w) + Times(b, v), w + v;
    var q := exact / total;
    assert WeightedAverage(a, w, b, v) == q;
    TimesQuotient(exact, total);
    TimesOrder(q - 0.5, n as real, total);
    TimesOrder(n as real, q + 0.5, total);
    TimesHalfStep(q, total);
  }

  lemma TimesHalfStep(q: real, w: real)
    ensures Times(q + 0.5, w) == Times(q, w) + 0.5 * w
    ensures Times(q - 0.5, w) == Times(q, w) - 0.5 * w
  {
  }

  ghost predicate PositiveFills(log: seq<Fill>) {
    forall i :: 0 <= i < |log| ==> log[i].qty > 0.0
  }

  function Of(log: seq<Fill>, symbol: string): (r: seq<Fill>) {
    if log == [] then []
    else
      var front, last := Of(log[..|log| - 1], symbol), log[|log| - 1];
      if last.symbol == symbol then front + [last] else front
  }

  lemma {:induction false} OfPositive(log: seq<Fill>, symbol: string)
    requires PositiveFills(log)
    ensures PositiveFills(Of(log, symbol))
  {
    if log != [] {
      OfPositive(log[..|log| - 1], symbol);
    }
  }

  /** The position a sequence of fills of one symbol leads to. */
  function Outcome(fills: seq<Fill>): Position
    requires PositiveFills(fills)
  {
    if fills == [] then FLAT else Apply(Outcome(fills[..|fills| - 1]), fills[|fills| - 1])
  }

  lemma OutcomeAppend(fills: seq<Fill>, f: Fill)
    requires PositiveFills(fills) && f.qty > 0.0
    ensures PositiveFills(fills + [f]) && Outcome(fills + [f]) == Apply(Outcome(fills), f)
  {
    assert (fills + [f])[..|fills|] == fills;
  }

  /** From a flat start, one position after the other, each what its fill makes of the one before. */
  ghost predicate Traced(fills: seq<Fill>, states: seq<Position>) {
    && |states| == |fills| + 1 && states[0] == Position(0.0, 0, 0.0, 0, 0.0)
    && forall i :: 0 <= i < |fills| ==> Averages(states[i], fills[i], states[i + 1])
  }

  /** Every run of fills is such a trace. */
  lemma {:induction false} OutcomeTraced(fills: seq<Fill>) returns (states: seq<Position>)
    requires PositiveFills(fills)
    ensures Traced(fills, states) && states[|fills|] == Outcome(fills)
  {
    hide Averages, Apply;
    if fills == [] {
      states := [FLAT];
    } else {
      var rest, f := fills[..|fills| - 1], fills[|fills| - 1];
      var before := OutcomeTraced(rest);
      ApplyAverages(Outcome(rest), f);
      states := before + [Outcome(fills)];
      forall i | 0 <= i < |fills|
        ensures Averages(states[i], fills[i], states[i + 1])
      {
        assert i < |rest| ==> states[i] == before[i] && states[i + 1] == before[i + 1] && fills[i] == rest[i];
      }
    }
  }

  function LowestPrice(fills: seq<Fill>): (p: int)
    requires fills != []
    ensures exists i :: 0 <= i < |fills| && fills[i].price == p
  {
    var last := fills[|fills| - 1].price;
    if |fills| == 1 then last
    else
      var rest := LowestPrice(fills[..|fills| - 1]);
      if last < rest then last else rest
  }

  function HighestPrice(fills: seq<Fill>): (p: int)
    requires fills != []
    ensures exists i :: 0 <= i < |fills| && fills[i].price == p
  {
    var last := fills[|fills| - 1].price;
    if |fills| == 1 then last
    else
      var rest := HighestPrice(fills[..|fills| - 1]);
      if last > rest then last else rest
  }

  lemma {:induction false} PricesWithin(fills: seq<Fill>, i: nat)
    requires i < |fills|
    ensures LowestPrice(fills) <= fills[i].price <= HighestPrice(fills)
  {
    if i < |fills| - 1 {
      PricesWithin(fills[..|fills| - 1], i);
    }
  }

  /** A weighted average of values in a range, with weights not both zero, lies in the range. */
  lemma WeightedWithin(a: real, w: real, b: real, v: real, lo: real, hi: real)
    requires w >= 0.0 && v > 0.0 && lo <= b <= hi
    requires w == 0.0 || lo <= a <= hi
    ensures lo <= WeightedAverage(a, w, b, v) <= hi
  {
    hide Times;
    if w == 0.0 {
      TimesZero(lo, a, hi);
    } else {
      TimesOrder(lo, a, w);
      TimesOrder(a, hi, w);
    }
    TimesOrder(lo, b, v);
    TimesOrder(b, hi, v);
    TimesSum(lo, w, v);
    TimesSum(hi, w, v);
    QuotientWithin(Times(a, w) + Times(b, v), w + v, lo, hi);
  }

  lemma TimesZero(lo: real, a: real, hi: real)
    ensures Times(lo, 0.0) == Times(a, 0.0) == Times(hi, 0.0) == 0.0
  {
  }

  lemma TimesSum(x: real, w: real, v: real)
    ensures Times(x, w + v) == Times(x, w) + Times(x, v)
  {
  }

  lemma TimesOrder(x: real, y: real, w: real)
    requires x <= y && w >= 0.0
    ensures Times(x, w) <= Times(y, w)
  {
    var d := y - x;
    assert d * w >= 0.0;
    assert y * w == x * w + d * w;
  }

  lemma TimesStrict(x: real, y: real, w: real)
    requires x < y && w > 0.0
    ensures Times(x, w) < Times(y, w)
  {
    var d := y - x;
    assert d * w > 0.0;
    assert y * w == x * w + d * w;
  }

  lemma TimesQuotient(sum: real, total: real)
    requires total > 0.0
    ensures Times(sum / total, total) == sum
  {
  }

  lemma QuotientWithin(sum: real, total: real, lo: real, hi: real)
    requires total > 0.0 && Times(lo, total) <= sum <= Times(hi, total)
    ensures lo <= sum / total <= hi
  {
    hide Times;
    var q := sum / total;
    TimesQuotient(sum, total);
    if q < lo {
      TimesStrict(q, lo, total);
    }
    if q > hi {
      TimesStrict(hi, q, total);
    }
  }

  lemma AverageCostWithin(avg: int, size: real, price: int, qty: real, lo: int, hi: int)
    requires size >= 0.0 && qty > 0.0 && lo <= price <= hi
    requires size == 0.0 || lo <= avg <= hi
    ensures lo <= AverageCost(avg, size, price, qty) <= hi
  {
    hide WeightedAverage, RoundHalfEven;
    var x := WeightedAverage(avg as real, size, price as real, qty);
    WeightedWithin(avg as real, size, price as real, qty, lo as real, hi as real);
    RoundAtLeast(x, lo);
    RoundAtMost(x, hi);
  }

  /**
   After any sequence of fills, opening, adding, reducing, flipping or re-opening after flat, the average cost lies
   between the lowest and the highest fill price, despite being rounded at each step.
   */
  lemma {:induction false} AverageCostWithinPrices(fills: seq<Fill>)
    requires PositiveFills(fills) && fills != []
    ensures LowestPrice(fills) <= Outcome(fills).avgCost <= HighestPrice(fills)
  {
    hide AverageCost;
    var rest, f := fills[..|fills| - 1], fills[|fills| - 1];
    var p := Outcome(rest);
    var lo, hi := LowestPrice(fills), HighestPrice(fills);
    if rest != [] {
      AverageCostWithinPrices(rest);
    }
    if p.net + Signed(f) != 0.0 {
      AverageCostWithin(p.avgCost, Abs(p.net), f.price, f.qty, lo, hi);
    }
  }

  // ----- sums

  function NetQuantity(fills: seq<Fill>): real {
    if fills == [] then 0.0 else NetQuantity(fills[..|fills| - 1]) + Signed(fills[|fills| - 1])
  }

  function TradedQuantity(fills: seq<Fill>): real {
    if fills == [] then 0.0 else TradedQuantity(fills[..|fills| - 1]) + fills[|fills| - 1].qty
  }

  function TotalFees(fills: seq<Fill>): int {
    if fills == [] then 0 else TotalFees(fills[..|fills| - 1]) + fills[|fills| - 1].fees
  }

  /** Net quantity, traded quantity and fees are the sums over the fills. */
  lemma {:induction false} OutcomeSums(fills: seq<Fill>)
    requires PositiveFills(fills)
    ensures Outcome(fills).net == NetQuantity(fills)
    ensures Outcome(fills).traded == TradedQuantity(fills)
    ensures Outcome(fills).fees == TotalFees(fills)
  {
    if fills != [] {
      hide AverageCost;
      OutcomeSums(fills[..|fills| - 1]);
    }
  }

  /** A fill on the opposite side of at most the position's size shrinks it by the fill and never crosses zero. */
  lemma OpposingFillShrinks(p: Position, f: Fill)
    requires 0.0 < f.qty <= Abs(p.net)
    requires f.side == if p.net > 0.0 then Sell else Buy
    ensures Abs(Apply(p, f).net) == Abs(p.net) - f.qty
    ensures p.net > 0.0 ==> Apply(p, f).net >= 0.0
    ensures p.net < 0.0 ==> Apply(p, f).net <= 0.0
  {
    hide AverageCost;
  }
}
