/**
 The seven risk filters and the shape they share.  Quantities are exact reals.  A filter never raises a quantity,
 with one exception: the correlation filter rounds to six decimals and can round up past what it was given.
 */
module RiskFilters {
  import opened Common
  import opened Fills

  datatype Mode = Pass | Cap | Veto

  datatype FilterResult = FilterResult(passed: bool, adjustedQty: real, limitCheckPassed: bool, mode: Mode, details: string)

  /** A named rule for positive quantities. */
  datatype Filter = Filter(name: string, rule: real -> FilterResult) {
    /** Nothing is left to filter in a quantity that is not positive. */
    function Apply(qty: real): FilterResult {
      if qty <= 0.0 then FilterResult(true, 0.0, true, Pass, "qty=0, skip filter") else rule(qty)
    }
  }

  datatype Limits = Limits(
    maxPositionPct: real, maxLossPctPerTrade: real, maxLossPctPerDay: real, maxDrawdownPct: real,
    maxSlippageBps: real, maxOrderSizePct: real, maxCorrelation: real)

  /** What the filters look at besides the quantity; the correlation is the resolved one, if any. */
  datatype Market = Market(
    equity: real, price: real, adv: real, advUsd: real, avgEntryPrice: real, dailyLossPct: real,
    drawdownPct: real, correlation: Option<real>, sameDirection: bool)

  ghost predicate Sensible(l: Limits, m: Market) {
    && 0.0 < l.maxPositionPct && 0.0 < l.maxOrderSizePct && 0.0 <= l.maxSlippageBps && 0.0 < l.maxCorrelation <= 1.0
    && 0.0 <= m.equity && 0.0 < m.price && 0.0 <= m.advUsd
  }

  function Passing(qty: real): FilterResult { FilterResult(true, qty, true, Pass, "") }

  function Capped(qty: real): FilterResult { FilterResult(true, qty, true, Cap, "") }

  function Vetoed(): FilterResult { FilterResult(false, 0.0, false, Veto, "") }

  function Max(a: real, b: real): real { if a >= b then a else b }

  function Min(a: real, b: real): real { if a <= b then a else b }

  function PositionLimit(l: Limits, m: Market, qty: real): FilterResult {
    var cap := m.equity * l.maxPositionPct / Max(m.price, 0.01);
    if qty <= cap then Passing(qty) else Capped(cap)
  }

  function LossLimit(l: Limits, m: Market, qty: real): FilterResult {
    var loss := qty * Abs(m.price - m.avgEntryPrice);
    var perTrade := m.avgEntryPrice > 0.0 && m.price > 0.0 && loss > 0.0 && m.equity > 0.0 && loss / m.equity > l.maxLossPctPerTrade;
    var perDay := l.maxLossPctPerDay > 0.0 && m.dailyLossPct > l.maxLossPctPerDay;
    if perTrade || perDay then Vetoed() else Passing(qty)
  }

  function DrawdownLimit(l: Limits, m: Market, qty: real): FilterResult {
    if m.drawdownPct >= l.maxDrawdownPct then Vetoed() else Passing(qty)
  }

  /** The share of a quantity that a breached correlation leaves. */
  function ReductionRatio(correlation: real, limit: real): real {
    var overflow := Min((correlation - limit) / Max(1.0 - limit, 0.000001), 1.0);
    Max(0.25, 1.0 - overflow)
  }

  function Steps(x: real): real { x * 1000000.0 }

  /** A share of a quantity, in millionths. */
  function ShareSteps(qty: real, ratio: real): real { Steps(qty * ratio) }

  /** A share of a quantity, rounded to six decimals. */
  function Reduced(qty: real, ratio: real): real {
    RoundHalfEven(ShareSteps(qty, ratio)) as real / 1000000.0
  }

  function CorrelationLimit(l: Limits, m: Market, qty: real): FilterResult {
    if l.maxCorrelation <= 0.0 || m.correlation == None || Abs(m.correlation.value) <= l.maxCorrelation || !m.sameDirection
    then Passing(qty)
    else
      var adjusted := Reduced(qty, ReductionRatio(Abs(m.correlation.value), l.maxCorrelation));
      if adjusted <= 0.0 then Vetoed() else FilterResult(true, adjusted, false, Cap, "")
  }

  function LiquidityCap(l: Limits, m: Market, qty: real): FilterResult {
    var cap := m.adv * Min(l.maxOrderSizePct * 10.0, 0.20);
    if m.adv <= 0.0 || qty <= cap then Passing(qty) else Capped(cap)
  }

  function Notional(qty: real, price: real): real { Times(qty, price) }

  function Participation(advUsd: real, notional: real): real
    requires notional > 0.0
  {
    notional / Max(advUsd, notional)
  }

  function ParticipationCap(advUsd: real, price: real): real
    requires price > 0.0
  {
    advUsd * 0.10 / price
  }

  /** The urgency is not handed to the filter, so the medium rate of 10% applies. */
  function ParticipationRate(m: Market, qty: real): FilterResult {
    if m.adv <= 0.0 || m.price <= 0.0 || qty <= 0.0 then Passing(qty)
    else
      PositiveNotional(qty, m.price);
      if Participation(m.advUsd, Notional(qty, m.price)) <= 0.10 then Passing(qty)
      else Capped(ParticipationCap(m.advUsd, m.price))
  }

  /** No slippage estimate is handed to the filter, so it compares zero. */
  function SlippageLimit(l: Limits, qty: real): FilterResult {
    if 0.0 <= l.maxSlippageBps then Passing(qty) else Vetoed()
  }

  /** The filters in the order the engine runs them. */
  function StandardFilters(l: Limits, m: Market): seq<Filter> {
    [ Filter("max_position_pct", q => PositionLimit(l, m, q)),
      Filter("loss_limit", q => LossLimit(l, m, q)),
      Filter("max_drawdown_pct", q => DrawdownLimit(l, m, q)),
      Filter("max_correlation", q => CorrelationLimit(l, m, q)),
      Filter("liquidity_cap", q => LiquidityCap(l, m, q)),
      Filter("participation_rate", q => ParticipationRate(m, q)),
      Filter("max_slippage_bps", q => SlippageLimit(l, q)) ]
  }

  /** Their names and rules, in that order. */
  lemma StandardOrder(l: Limits, m: Market)
    ensures var f := StandardFilters(l, m);
            && |f| == 7 && f[0].name == "max_position_pct" && f[1].name == "loss_limit" && f[2].name == "max_drawdown_pct"
            && f[3].name == "max_correlation" && f[4].name == "liquidity_cap" && f[5].name == "participation_rate"
            && f[6].name == "max_slippage_bps"
    ensures var f := StandardFilters(l, m);
            forall qty: real :: qty > 0.0 ==>
              && f[0].Apply(qty) == PositionLimit(l, m, qty) && f[1].Apply(qty) == LossLimit(l, m, qty)
              && f[2].Apply(qty) == DrawdownLimit(l, m, qty) && f[3].Apply(qty) == CorrelationLimit(l, m, qty)
              && f[4].Apply(qty) == LiquidityCap(l, m, qty) && f[5].Apply(qty) == ParticipationRate(m, qty)
              && f[6].Apply(qty) == SlippageLimit(l, qty)
  {
  }

  // ----- what each of them does to a quantity, told from its limit

  ghost predicate Kept(r: FilterResult, qty: real) { r.passed && r.limitCheckPassed && r.mode == Pass && r.adjustedQty == qty }

  ghost predicate CutTo(r: FilterResult, cap: real) { r.passed && r.limitCheckPassed && r.mode == Cap && r.adjustedQty == cap }

  ghost predicate Refused(r: FilterResult) { !r.passed && !r.limitCheckPassed && r.mode == Veto && r.adjustedQty == 0.0 }

  lemma QuotientOrder(x: real, y: real, q: real)
    requires y > 0.0
    ensures q <= x / y <==> Times(q, y) <= x
    ensures x / y * y == x
  {
    TimesQuotient(x, y);
    hide Times;
    if q <= x / y {
      TimesOrder(q, x / y, y);
    } else {
      TimesStrict(x / y, q, y);
    }
  }

  /** The value of what passes, at no price below a cent, is within the share of the equity, and equal to it when cut. */
  lemma PositionLimitExact(l: Limits, m: Market, qty: real)
    requires Sensible(l, m)
    ensures var price, room := if m.price < 0.01 then 0.01 else m.price, m.equity * l.maxPositionPct;
            var r := PositionLimit(l, m, qty);
            if qty * price <= room then Kept(r, qty) else CutTo(r, r.adjustedQty) && r.adjustedQty * price == room
  {
    QuotientOrder(m.equity * l.maxPositionPct, if m.price < 0.01 then 0.01 else m.price, qty);
  }

  /** Vetoed when the loss since entry exceeds its share of the equity, or the day's loss its limit. */
  lemma LossLimitExact(l: Limits, m: Market, qty: real)
    ensures var distance := if m.price < m.avgEntryPrice then m.avgEntryPrice - m.price else m.price - m.avgEntryPrice;
            var loss := qty * distance;
            var perTrade := m.avgEntryPrice > 0.0 && m.price > 0.0 && loss > 0.0 && m.equity > 0.0 && loss > l.maxLossPctPerTrade * m.equity;
            var perDay := l.maxLossPctPerDay > 0.0 && m.dailyLossPct > l.maxLossPctPerDay;
            if perTrade || perDay then Refused(LossLimit(l, m, qty)) else Kept(LossLimit(l, m, qty), qty)
  {
    var loss := qty * Abs(m.price - m.avgEntryPrice);
    if m.equity > 0.0 {
      QuotientOrder(loss, m.equity, l.maxLossPctPerTrade);
      if loss / m.equity <= l.maxLossPctPerTrade {
        TimesOrder(loss / m.equity, l.maxLossPctPerTrade, m.equity);
      } else {
        TimesStrict(l.maxLossPctPerTrade, loss / m.equity, m.equity);
      }
    }
  }

  lemma DrawdownLimitExact(l: Limits, m: Market, qty: real)
    ensures if m.drawdownPct >= l.maxDrawdownPct then Refused(DrawdownLimit(l, m, qty)) else Kept(DrawdownLimit(l, m, qty), qty)
  {
  }

  /** Cut to the daily volume times ten order shares, at most a fifth; no cut without a volume. */
  lemma LiquidityCapExact(l: Limits, m: Market, qty: real)
    ensures var share := if l.maxOrderSizePct < 0.02 then l.maxOrderSizePct * 10.0 else 0.20;
            if m.adv <= 0.0 || qty <= m.adv * share then Kept(LiquidityCap(l, m, qty), qty)
            else CutTo(LiquidityCap(l, m, qty), m.adv * share)
  {
  }

  /** Cut to the quantity whose value is a tenth of the daily value traded. */
  lemma ParticipationExact(l: Limits, m: Market, qty: real)
    requires Sensible(l, m) && qty > 0.0
    ensures var r := ParticipationRate(m, qty);
            if m.adv <= 0.0 || qty * m.price <= 0.10 * m.advUsd then Kept(r, qty)
            else CutTo(r, r.adjustedQty) && r.adjustedQty * m.price == 0.10 * m.advUsd
  {
    var notional := Notional(qty, m.price);
    PositiveNotional(qty, m.price);
    var most := Max(m.advUsd, notional);
    ShareWithin(notional, most, m.advUsd);
    QuotientOrder(m.advUsd * 0.10, m.price, 0.0);
    assert Notional(qty, m.price) == qty * m.price;
  }

  lemma ShareWithin(part: real, most: real, total: real)
    requires part > 0.0 && total >= 0.0 && most == Max(total, part)
    ensures part / most <= 0.10 <==> part <= 0.10 * total
  {
    TimesQuotient(part, most);
    if part / most <= 0.10 {
      TimesOrder(part / most, 0.10, most);
    } else {
      TimesStrict(0.10, part / most, most);
    }
  }

  /** The share left by a correlation over its limit: down from one in proportion to the excess, and never below a quarter. */
  ghost predicate LeavesShare(correlation: real, limit: real, share: real) {
    var room := if limit > 0.999999 then 0.000001 else 1.0 - limit;
    if correlation - limit >= 0.75 * room then share == 0.25 else (1.0 - share) * room == correlation - limit
  }

  /** A breach in the same direction leaves that share to the nearest millionth; vetoed when nothing is left. */
  lemma CorrelationExact(l: Limits, m: Market, qty: real)
    ensures var r := CorrelationLimit(l, m, qty);
            if l.maxCorrelation > 0.0 && m.correlation.Some? && Abs(m.correlation.value) > l.maxCorrelation && m.sameDirection then
              exists share: real :: LeavesShare(Abs(m.correlation.value), l.maxCorrelation, share)
                && if qty * share <= 0.0000005 then Refused(r)
                   else r.passed && !r.limitCheckPassed && r.mode == Cap && -0.0000005 <= r.adjustedQty - qty * share <= 0.0000005
            else Kept(r, qty)
  {
    hide ReductionRatio, Reduced;
    if l.maxCorrelation > 0.0 && m.correlation.Some? && Abs(m.correlation.value) > l.maxCorrelation && m.sameDirection {
      var c := Abs(m.correlation.value);
      var share := ReductionRatio(c, l.maxCorrelation);
      ShareLeft(c, l.maxCorrelation);
      ReducedNear(qty, share);
      hide LeavesShare;
      assert LeavesShare(c, l.maxCorrelation, share);
    }
  }

  lemma ShareLeft(c: real, limit: real)
    requires c > limit
    ensures LeavesShare(c, limit, ReductionRatio(c, limit))
  {
    var room, over := Max(1.0 - limit, 0.000001), c - limit;
    var q := over / room;
    TimesQuotient(over, room);
    if q < 0.75 {
      TimesStrict(q, 0.75, room);
    } else {
      TimesOrder(0.75, q, room);
    }
  }

  lemma ReducedNear(qty: real, share: real)
    ensures -0.0000005 <= Reduced(qty, share) - qty * share <= 0.0000005
    ensures Reduced(qty, share) <= 0.0 <==> qty * share <= 0.0000005
  {
    var x := qty * share;
    var n := RoundHalfEven(ShareSteps(qty, share));
    assert ShareSteps(qty, share) == x * 1000000.0;
    if x > 0.0000005 {
      assert n >= 1;
    } else {
      assert n <= 1;
    }
  }

  // ----- none of them raises a quantity, but one

  lemma PositionLimitNeverRaises(l: Limits, m: Market, qty: real)
    requires Sensible(l, m) && qty > 0.0
    ensures 0.0 <= PositionLimit(l, m, qty).adjustedQty <= qty
  {
    var price := Max(m.price, 0.01);
    assert m.equity * l.maxPositionPct >= 0.0;
    QuotientWithinLow(m.equity * l.maxPositionPct, price);
  }

  lemma QuotientWithinLow(x: real, y: real)
    requires x >= 0.0 && y > 0.0
    ensures x / y >= 0.0
  {
  }

  lemma VetoesNeverRaise(l: Limits, m: Market, qty: real)
    requires Sensible(l, m) && qty > 0.0
    ensures 0.0 <= LossLimit(l, m, qty).adjustedQty <= qty
    ensures 0.0 <= DrawdownLimit(l, m, qty).adjustedQty <= qty
    ensures SlippageLimit(l, qty) == Passing(qty)
  {
  }

  lemma LiquidityCapNeverRaises(l: Limits, m: Market, qty: real)
    requires Sensible(l, m) && qty > 0.0
    ensures 0.0 <= LiquidityCap(l, m, qty).adjustedQty <= qty
  {
    var share := Min(l.maxOrderSizePct * 10.0, 0.20);
    if m.adv > 0.0 {
      assert m.adv * share >= 0.0;
    }
  }

  lemma PositiveNotional(qty: real, price: real)
    requires qty > 0.0 && price > 0.0
    ensures Notional(qty, price) > 0.0
  {
  }

  lemma ParticipationNeverRaises(l: Limits, m: Market, qty: real)
    requires Sensible(l, m) && qty > 0.0
    ensures 0.0 <= ParticipationRate(m, qty).adjustedQty <= qty
  {
    hide Notional, Participation, ParticipationCap;
    PositiveNotional(qty, m.price);
    if Participation(m.advUsd, Notional(qty, m.price)) > 0.10 {
      TenthBelow(m.advUsd, Notional(qty, m.price));
      CapBelow(m.advUsd, qty, m.price);
    }
  }

  lemma TenthBelow(total: real, part: real)
    requires total >= 0.0 && part > 0.0 && Participation(total, part) > 0.10
    ensures Times(0.10, total) <= part
  {
    hide Times;
    if total > part {
      TimesQuotient(part, total);
      TimesOrder(0.10, part / total, total);
    } else {
      TimesOrder(0.10, 1.0, total);
      TimesOne(total);
    }
  }

  lemma TimesOne(x: real)
    ensures Times(1.0, x) == x
  {
  }

  lemma CapBelow(advUsd: real, qty: real, price: real)
    requires price > 0.0 && 0.0 <= Times(0.10, advUsd) <= Notional(qty, price)
    ensures 0.0 <= ParticipationCap(advUsd, price) <= qty
  {
    assert advUsd * 0.10 == Times(0.10, advUsd);
    assert Times(0.0, price) == 0.0;
    hide Times;
    QuotientWithin(Times(0.10, advUsd), price, 0.0, qty);
  }

  lemma RatioWithin(correlation: real, limit: real)
    requires 0.0 < limit <= 1.0 && correlation > limit
    ensures 0.25 <= ReductionRatio(correlation, limit) < 1.0
  {
    var room := Max(1.0 - limit, 0.000001);
    var excess := correlation - limit;
    assert excess / room > 0.0;
  }

  /** The fraction of a millionth in a quantity. */
  function Excess(qty: real): real { Steps(qty) - Steps(qty).Floor as real }

  lemma StepsScale(qty: real, r: real)
    ensures ShareSteps(qty, r) == Times(r, Steps(qty))
  {
    assert qty * r * 1000000.0 == r * (qty * 1000000.0);
  }

  lemma StepsBack(qty: real, n: int)
    ensures n as real <= Steps(qty) <==> n as real / 1000000.0 <= qty
    ensures qty > 0.0 ==> Steps(qty) > 0.0
  {
  }

  /** What is at most half a millionth above the six-decimal grid is never exceeded from below, whatever the correlation. */
  lemma CorrelationWithin(l: Limits, m: Market, qty: real, bound: real)
    requires Sensible(l, m) && 0.0 < qty <= bound && Excess(bound) <= 0.5
    ensures 0.0 <= CorrelationLimit(l, m, qty).adjustedQty <= bound
  {
    hide ReductionRatio, Reduced, Excess;
    if m.correlation.Some? && Abs(m.correlation.value) > l.maxCorrelation && m.sameDirection {
      RatioWithin(Abs(m.correlation.value), l.maxCorrelation);
      ReducedWithin(qty, ReductionRatio(Abs(m.correlation.value), l.maxCorrelation), bound);
    }
  }

  /** So a quantity that close to the grid is never raised. */
  lemma CorrelationKeeps(l: Limits, m: Market, qty: real)
    requires Sensible(l, m) && qty > 0.0 && Excess(qty) <= 0.5
    ensures 0.0 <= CorrelationLimit(l, m, qty).adjustedQty <= qty
  {
    hide CorrelationLimit, Excess;
    CorrelationWithin(l, m, qty, qty);
  }

  lemma ReducedWithin(qty: real, r: real, bound: real)
    requires 0.0 < qty <= bound && 0.25 <= r < 1.0 && Excess(bound) <= 0.5
    ensures Reduced(qty, r) <= bound
  {
    hide RoundHalfEven, Steps, ShareSteps;
    var x, down := ShareSteps(qty, r), Steps(bound).Floor;
    ShareBelow(qty, r, bound);
    RoundBelowHalf(x, down);
    assert RoundHalfEven(x) as real <= down as real <= Steps(bound);
    StepsBack(bound, RoundHalfEven(x));
  }

  lemma ShareBelow(qty: real, r: real, bound: real)
    requires 0.0 < qty <= bound && r < 1.0
    ensures ShareSteps(qty, r) < Steps(bound)
  {
    hide ShareSteps, Steps, Times;
    var steps := Steps(qty);
    StepsScale(qty, r);
    StepsBack(qty, 0);
    TimesStrict(r, 1.0, steps);
    TimesOne(steps);
    StepsOrder(qty, bound);
  }

  lemma StepsOrder(a: real, b: real)
    requires a <= b
    ensures Steps(a) <= Steps(b)
  {
  }

  lemma RoundBelowHalf(x: real, n: int)
    requires x < n as real + 0.5
    ensures RoundHalfEven(x) <= n
  {
    if x >= n as real {
      assert x.Floor == n;
    } else {
      RoundAtMost(x, n);
    }
  }

  /** Any other quantity is raised by some correlation reading under some limit. */
  lemma CorrelationRaises(qty: real) returns (l: Limits, m: Market)
    requires qty > 0.0 && Excess(qty) > 0.5
    ensures Sensible(l, m) && CorrelationLimit(l, m, qty).adjustedQty > qty
    ensures m.equity * l.maxPositionPct == qty && m.price == 1.0 && l.maxDrawdownPct > 0.0
    ensures m.avgEntryPrice == m.dailyLossPct == m.drawdownPct == m.adv == 0.0
  {
    hide Steps, RoundHalfEven, ReductionRatio, Reduced, Times;
    var steps := Steps(qty);
    StepsBack(qty, 0);
    var down := steps.Floor;
    // midway between the tie and the quantity, as a share of the quantity
    var target := (down as real + 0.5 + steps) / 2.0;
    var r := target / steps;
    TimesQuotient(target, steps);
    RatioReached(down as real, steps, target, r);
    l := Limits(0.1, 0.02, 0.05, 0.15, 10.0, 0.05, 0.5);
    m := Market(10.0 * qty, 1.0, 0.0, 0.0, 0.0, 0.0, 0.0, Some(1.0 - r / 2.0), true);
    RatioOf(r);
    RoundsUp(qty, r, down);
  }

  lemma RoundsUp(qty: real, r: real, down: int)
    requires qty > 0.0 && down as real + 0.5 < Times(r, Steps(qty)) < Steps(qty) < down as real + 1.0
    ensures Reduced(qty, r) > qty
  {
    hide Steps, RoundHalfEven, ShareSteps, Times;
    StepsScale(qty, r);
    RoundAboveHalf(ShareSteps(qty, r), down);
    StepsBack(qty, down + 1);
  }

  lemma RatioReached(down: real, steps: real, target: real, r: real)
    requires down >= 0.0 && down + 0.5 < steps < down + 1.0
    requires target == (down + 0.5 + steps) / 2.0 && Times(r, steps) == target
    ensures 0.5 < r < 1.0 && down + 0.5 < target < steps
  {
    hide Times;
    TimesOne(steps);
    TimesHalf(steps);
    if r >= 1.0 {
      TimesOrder(1.0, r, steps);
    }
    if r <= 0.5 {
      TimesOrder(r, 0.5, steps);
    }
  }

  lemma TimesHalf(x: real)
    ensures Times(0.5, x) == x / 2.0
  {
  }

  lemma RatioOf(r: real)
    requires 0.5 < r < 1.0
    ensures ReductionRatio(1.0 - r / 2.0, 0.5) == r
  {
    assert (1.0 - r / 2.0 - 0.5) / 0.5 == 1.0 - r;
  }

  lemma RoundAboveHalf(x: real, n: int)
    requires n as real + 0.5 < x < n as real + 1.0
    ensures RoundHalfEven(x) == n + 1
  {
    assert x.Floor == n;
  }

  /** Every standard filter but the correlation filter keeps or lowers every quantity; that one, those close to the grid. */
  lemma StandardNeverRaises(l: Limits, m: Market, i: nat, qty: real)
    requires Sensible(l, m) && i < 7 && qty > 0.0
    requires i == 3 ==> Excess(qty) <= 0.5
    ensures 0.0 <= StandardFilters(l, m)[i].Apply(qty).adjustedQty <= qty
  {
    hide PositionLimit, LossLimit, DrawdownLimit, CorrelationLimit, LiquidityCap, ParticipationRate, SlippageLimit, Excess;
    match i {
      case 0 => PositionLimitNeverRaises(l, m, qty);
      case 1 => VetoesNeverRaise(l, m, qty);
      case 2 => VetoesNeverRaise(l, m, qty);
      case 3 => CorrelationKeeps(l, m, qty);
      case 4 => LiquidityCapNeverRaises(l, m, qty);
      case 5 => ParticipationNeverRaises(l, m, qty);
      case _ => VetoesNeverRaise(l, m, qty);
    }
  }

  /** A bound close to the grid that the quantity does not exceed, no standard filter lets it exceed. */
  lemma StandardWithin(l: Limits, m: Market, i: nat, qty: real, bound: real)
    requires Sensible(l, m) && i < 7 && 0.0 < qty <= bound && Excess(bound) <= 0.5
    ensures 0.0 <= StandardFilters(l, m)[i].Apply(qty).adjustedQty <= bound
  {
    hide CorrelationLimit, Excess;
    if i == 3 {
      CorrelationWithin(l, m, qty, bound);
      assert StandardFilters(l, m)[i].Apply(qty) == CorrelationLimit(l, m, qty);
    } else {
      StandardNeverRaises(l, m, i, qty);
    }
  }
}
