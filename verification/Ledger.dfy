/**
 The simulated execution engine: orders, fills and positions kept in dictionaries of shared records, and the memory
 sink that is handed the same position objects.
 */
module Ledger {
  import opened Common
  import opened Fills

  datatype Status = Submitted | Acknowledged | Filled | Cancelled

  datatype Transition = Transition(from: Status, to: Status)

  datatype Report = Report(orderId: string, status: Status)

  /** What a call returns or raises. */
  datatype Result = Done | NotRunning | BadQuantity | BlockingRisk | SinkClosed | BadMetadata | NoSuchOrder | AlreadyFilled

  /** A status history is a chain: each transition starts where the one before it ended. */
  ghost predicate Linked(history: seq<Transition>, first: Status, last: Status) {
    if history == [] then first == last
    else
      var n := |history| - 1;
      history[n].to == last && Linked(history[..n], first, history[n].from)
  }

  lemma LinkedAppend(history: seq<Transition>, first: Status, last: Status, to: Status)
    requires Linked(history, first, last)
    ensures Linked(history + [Transition(last, to)], first, to)
  {
    assert (history + [Transition(last, to)])[..|history|] == history;
  }

  lemma {:induction false} LinkedMeans(history: seq<Transition>, first: Status, last: Status)
    requires Linked(history, first, last)
    ensures history == [] ==> first == last
    ensures history != [] ==> history[0].from == first && history[|history| - 1].to == last
    ensures forall i :: 0 < i < |history| ==> history[i].from == history[i - 1].to
  {
    if history != [] {
      LinkedMeans(history[..|history| - 1], first, history[|history| - 1].from);
    }
  }

  class OrderRecord {
    const orderId: string
    const symbol: string
    const side: Side
    var quantity: real
    var price: Option<real>
    var status: Status
    var history: seq<Transition>
    var fills: seq<string>

    constructor (orderId: string, intent: Intent)
      ensures this.orderId == orderId && symbol == intent.symbol && side == intent.side
      ensures quantity == intent.quantity && price == intent.price
      ensures status == Submitted && history == [] && fills == []
    {
      this.orderId, symbol, side := orderId, intent.symbol, intent.side;
      quantity, price := intent.quantity, intent.price;
      status, history, fills := Submitted, [], [];
    }

    method AddTransition(to: Status)
      requires Linked(history, Submitted, status)
      modifies `status, `history
      ensures status == to && history == old(history) + [Transition(old(status), to)]
      ensures Linked(history, Submitted, status)
    {
      LinkedAppend(history, Submitted, status, to);
      history := history + [Transition(status, to)];
      status := to;
    }
  }

  class PositionState {
    const symbol: string
    var value: Position
    var updatedAt: int

    constructor (symbol: string)
      ensures this.symbol == symbol && value == FLAT
    {
      this.symbol, value, updatedAt := symbol, FLAT, 0;
    }
  }

  /** The fills of one order. */
  function FillsOf(log: seq<Fill>, orderId: string): seq<Fill> {
    if log == [] then []
    else
      var front, last := FillsOf(log[..|log| - 1], orderId), log[|log| - 1];
      if last.orderId == orderId then front + [last] else front
  }

  class MemoryEventSink {
    var intents: seq<Intent>
    var reports: seq<Report>
    var fills: seq<Fill>
    var positions: seq<PositionState>
    var closed: bool

    constructor ()
      ensures intents == [] && reports == [] && fills == [] && positions == [] && !closed
    {
      intents, reports, fills, positions, closed := [], [], [], [], false;
    }

    method Close()
      modifies `closed
      ensures closed
    {
      closed := true;
    }

    method GetFillsForOrder(orderId: string) returns (r: seq<Fill>)
      ensures r == FillsOf(fills, orderId)
    {
      r := [];
      for i := 0 to |fills|
        invariant r == FillsOf(fills[..i], orderId)
      {
        assert fills[..i + 1][..i] == fills[..i];
        if fills[i].orderId == orderId {
          r := r + [fills[i]];
        }
      }
      assert fills[..|fills|] == fills;
    }

    /** The most recently updated of the recorded positions of a symbol. */
    method GetPositionForSymbol(symbol: string) returns (p: PositionState?)
      ensures p == null <==> forall i :: 0 <= i < |positions| ==> positions[i].symbol != symbol
      ensures p != null ==> p in positions && p.symbol == symbol
      ensures p != null ==> forall i :: 0 <= i < |positions| && positions[i].symbol == symbol ==> positions[i].updatedAt <= p.updatedAt
    {
      p := null;
      for i := 0 to |positions|
        invariant p == null <==> forall j :: 0 <= j < i ==> positions[j].symbol != symbol
        invariant p != null ==> p in positions && p.symbol == symbol
        invariant p != null ==> forall j :: 0 <= j < i && positions[j].symbol == symbol ==> positions[j].updatedAt <= p.updatedAt
      {
        if positions[i].symbol == symbol && (p == null || positions[i].updatedAt > p.updatedAt) {
          p := positions[i];
        }
      }
    }
  }

  datatype Call =
    | StartCall
    | StopCall
    | CloseCall
    | CancelCall(id: string)
    | ModifyCall(id: string, quantity: Option<real>, price: Option<real>)
    | SubmitCall(intent: Intent, id: string, recordId: string, now: int)

  class SimulationEngine {
    const sink: MemoryEventSink
    var running: bool
    var orders: map<string, OrderRecord>
    var fills: map<string, seq<Fill>>
    var positions: map<string, PositionState>
    ghost var log: seq<Fill>

    /** Every order: filled exactly when it has its one fill, and a history that leads to its status. */
    ghost predicate OrderValid(id: string)
      requires id in orders
      reads `orders, `fills, `log, orders[id]
    {
      var o := orders[id];
      && o.orderId == id
      && Linked(o.history, Submitted, o.status)
      && (o.status == Filled <==> id in fills)
      && (id in fills ==> |fills[id]| == 1 && fills[id][0].qty == o.quantity && o.fills == [fills[id][0].recordId])
      && (id !in fills ==> o.fills == [])
      && FillsOf(log, id) == (if id in fills then fills[id] else [])
    }

    ghost predicate OrdersValid()
      reads `orders, `fills, `log, orders.Values
    {
      && fills.Keys <= orders.Keys
      && (forall id :: id in orders ==> OrderValid(id))
      && (forall i :: 0 <= i < |log| ==> log[i].orderId in orders)
    }

    /** Every position is what its symbol's fills lead to; a symbol has one exactly when it was filled. */
    ghost predicate PositionsMatch(l: seq<Fill>)
      reads `positions, positions.Values
    {
      && PositiveFills(l)
      && (forall s :: s in positions <==> Of(l, s) != [])
      && (forall s :: s in positions ==> positions[s].symbol == s && PositionIs(l, s))
    }

    ghost predicate PositionIs(l: seq<Fill>, s: string)
      requires s in positions && PositiveFills(l)
      reads `positions, positions[s]
    {
      OfPositive(l, s);
      positions[s].value == Outcome(Of(l, s))
    }

    /** The position entries of the sink are the engine's own objects. */
    ghost predicate SinkPositions()
      reads `positions, sink`positions
    {
      && (forall p :: p in sink.positions ==> p.symbol in positions && positions[p.symbol] == p)
      && (forall s :: s in positions ==> positions[s] in sink.positions)
    }

    ghost predicate Valid()
      reads `orders, `fills, `log, `positions, sink`fills, sink`positions, orders.Values, positions.Values
    {
      OrdersValid() && PositionsMatch(log) && SinkPositions() && sink.fills == log
    }

    constructor ()
      ensures Valid() && log == [] && orders == map[] && positions == map[] && !running && fresh(sink)
    {
      sink := new MemoryEventSink();
      running, orders, fills, positions, log := false, map[], map[], map[], [];
    }

    /** The position of a symbol as it stands; flat when there is none. */
    ghost function ValueOf(symbol: string): Position
      reads `positions, positions.Values
    {
      if symbol in positions then positions[symbol].value else Position(0.0, 0, 0.0, 0, 0.0)
    }

    /** Adds a fill to its symbol's position, opening the position if there is none. */
    method UpdatePosition(fill: Fill, now: int) returns (p: PositionState)
      requires fill.qty > 0.0
      requires forall s :: s in positions ==> positions[s].symbol == s
      modifies `positions, positions.Values
      ensures fill.symbol in positions && positions == old(positions)[fill.symbol := p]
      ensures fill.symbol in old(positions) ==> p == old(positions)[fill.symbol]
      ensures fill.symbol !in old(positions) ==> fresh(p)
      ensures p.symbol == fill.symbol
      ensures p.value == Apply(old(if fill.symbol in positions then positions[fill.symbol].value else FLAT), fill)
      ensures Averages(old(ValueOf(fill.symbol)), fill, p.value) && p.updatedAt == now
      ensures forall s :: s in old(positions) && s != fill.symbol ==> unchanged(old(positions)[s])
    {
      ApplyAverages(ValueOf(fill.symbol), fill);
      hide Averages;
      if fill.symbol in positions {
        p := positions[fill.symbol];
      } else {
        p := new PositionState(fill.symbol);
      }
      p.value := Apply(p.value, fill);
      p.updatedAt := now;
      positions := positions[fill.symbol := p];
    }

    method Start()
      requires Valid()
      modifies `running
      ensures Valid() && running
    {
      hide OrdersValid, PositionsMatch, SinkPositions;
      running := true;
    }

    method Stop()
      requires Valid()
      modifies `running
      ensures Valid() && !running
    {
      hide OrdersValid, PositionsMatch, SinkPositions;
      running := false;
    }

    /** Closing the sink leaves what it recorded. */
    method CloseSink()
      requires Valid()
      modifies sink`closed
      ensures Valid() && sink.closed
    {
      hide OrdersValid, PositionsMatch, SinkPositions;
      sink.Close();
    }

    /** One order changes and stays valid: all stay valid. */
    twostate lemma OthersStay(order: OrderRecord)
      requires old(OrdersValid()) && order.orderId in orders && orders[order.orderId] == order && OrderValid(order.orderId)
      requires orders == old(orders) && fills == old(fills) && log == old(log)
      requires forall id :: id in orders && id != order.orderId ==> unchanged(orders[id])
      ensures OrdersValid()
    {
      forall id | id in orders
        ensures OrderValid(id)
      {
        assert old(OrderValid(id));
      }
    }

    /** One order gets its fill: all stay valid. */
    twostate lemma OrdersAfterFill(order: OrderRecord, new fill: Fill)
      requires old(OrdersValid()) && order.orderId in orders && orders[order.orderId] == order
      requires fill.orderId == order.orderId && order.orderId !in old(fills)
      requires orders == old(orders) && fills == old(fills)[order.orderId := [fill]] && log == old(log) + [fill]
      requires order.status == Filled && order.fills == [fill.recordId] && fill.qty == order.quantity
      requires Linked(order.history, Submitted, Filled)
      requires forall id :: id in orders && id != order.orderId ==> unchanged(orders[id])
      ensures OrdersValid()
    {
      hide Linked, FillsOf;
      forall id | id in orders
        ensures OrderValid(id)
      {
        assert old(OrderValid(id));
        FillsOfAppend(old(log), fill, id);
      }
    }

    /** One position takes its fill: all stay the outcome of their fills. */
    twostate lemma PositionsAfterFill(before: seq<Fill>, new fill: Fill, new p: PositionState)
      requires old(PositionsMatch(before)) && fill.qty > 0.0 && p.symbol == fill.symbol
      requires positions == old(positions)[fill.symbol := p]
      requires p.value == Apply(old(if fill.symbol in positions then positions[fill.symbol].value else FLAT), fill)
      requires forall s :: s in old(positions) && s != fill.symbol ==> unchanged(old(positions)[s])
      ensures PositionsMatch(before + [fill])
    {
      hide Outcome, Apply, Of;
      var after := before + [fill];
      NoFillsFlat();
      forall s: string
        ensures Of(after, s) == if s == fill.symbol then Of(before, s) + [fill] else Of(before, s)
      {
        OfAppend(before, fill, s);
      }
      OfPositive(before, fill.symbol);
      OutcomeAppend(Of(before, fill.symbol), fill);
      assert fill.symbol in old(positions) ==> old(PositionIs(before, fill.symbol));
      forall s | s in positions
        ensures positions[s].symbol == s && PositionIs(after, s)
      {
        assert s != fill.symbol ==> s in old(positions) && old(PositionIs(before, s));
      }
    }

    /** A new order without a fill joins: all stay valid. */
    twostate lemma OrdersWithNew(new order: OrderRecord)
      requires old(OrdersValid()) && order.orderId !in old(orders)
      requires orders == old(orders)[order.orderId := order] && fills == old(fills) && log == old(log)
      requires order.status == Submitted && order.history == [] && order.fills == []
      requires forall id :: id in old(orders) ==> unchanged(old(orders)[id])
      ensures OrdersValid()
    {
      NoFillsYet(log, order.orderId);
      forall id | id in orders
        ensures OrderValid(id)
      {
        assert id in old(orders) ==> old(OrderValid(id));
      }
    }

    /** The sink got the position that the engine keeps: it still mirrors the engine. */
    twostate lemma SinkAfterFill(symbol: string, new p: PositionState)
      requires old(SinkPositions()) && p.symbol == symbol
      requires symbol in old(positions) ==> old(positions)[symbol] == p
      requires positions == old(positions)[symbol := p] && sink.positions == old(sink.positions) + [p]
      ensures SinkPositions()
    {
    }

    lemma SymbolsMatch(l: seq<Fill>)
      requires PositionsMatch(l)
      ensures forall s :: s in positions ==> positions[s].symbol == s
    {
    }

    /** No order is kept under two ids. */
    lemma OrdersDistinct(order: OrderRecord)
      requires OrdersValid()
      ensures forall id :: id in orders && id != order.orderId ==> orders[id] != order
    {
      OrdersApart();
    }

    lemma OrderValidAt(id: string)
      requires OrdersValid() && id in orders
      ensures OrderValid(id)
    {
    }

    /** Marks an order filled by its one fill. */
    method SettleOrder(order: OrderRecord, fill: Fill)
      requires order.orderId in orders && orders[order.orderId] == order && fill.orderId == order.orderId
      requires OrderValid(order.orderId) && order.status == Submitted && fill.qty == order.quantity
      modifies `fills, order
      ensures fills == old(fills)[order.orderId := [fill]]
      ensures order.status == Filled && order.fills == [fill.recordId] && order.quantity == old(order.quantity)
      ensures order.price == old(order.price) && Linked(order.history, Submitted, Filled)
      ensures order.history == old(order.history) + [Transition(Submitted, Acknowledged), Transition(Acknowledged, Filled)]
    {
      fills := fills[order.orderId := [fill]];
      order.fills := order.fills + [fill.recordId];
      order.AddTransition(Acknowledged);
      order.AddTransition(Filled);
    }

    /** Fills an order and logs the fill. */
    method BookOrder(order: OrderRecord, fill: Fill)
      requires OrdersValid() && sink.fills == log
      requires order.orderId in orders && orders[order.orderId] == order && fill.orderId == order.orderId
      requires order.status == Submitted && fill.qty == order.quantity
      modifies `fills, `log, sink`fills, order
      ensures OrdersValid() && log == old(log) + [fill] && sink.fills == log
      ensures order.status == Filled && order.quantity == old(order.quantity) && order.price == old(order.price)
      ensures order.history == old(order.history) + [Transition(Submitted, Acknowledged), Transition(Acknowledged, Filled)]
      ensures order.fills == [fill.recordId] && fills == old(fills)[order.orderId := [fill]]
    {
      OrderValidAt(order.orderId);
      OrdersDistinct(order);
      hide Linked, OrdersValid;
      SettleOrder(order, fill);
      log := log + [fill];
      sink.fills := sink.fills + [fill];
      OrdersAfterFill(order, fill);
    }

    /** Books a fill into its position and hands the position to the sink. */
    method BookPosition(fill: Fill, now: int, ghost before: seq<Fill>)
      requires PositionsMatch(before) && SinkPositions() && fill.qty > 0.0
      modifies `positions, sink`positions, positions.Values
      ensures PositionsMatch(before + [fill]) && SinkPositions()
      ensures fill.symbol in positions && Averages(old(ValueOf(fill.symbol)), fill, positions[fill.symbol].value)
      ensures forall s :: s in old(positions) && s != fill.symbol ==> s in positions && unchanged(old(positions)[s])
      ensures forall s :: s in positions ==> fresh(positions[s]) || (s in old(positions) && positions[s] == old(positions)[s])
    {
      SymbolsMatch(before);
      hide Outcome, Apply, Averages, PositionsMatch, SinkPositions;
      var p := UpdatePosition(fill, now);
      sink.positions := sink.positions + [p];
      SinkAfterFill(fill.symbol, p);
      PositionsAfterFill(before, fill, p);
    }

    /** Books a fill: the order, the position, and the sink's record of both. */
    method Book(order: OrderRecord, fill: Fill, now: int)
      requires Valid() && fill.qty > 0.0
      requires order.orderId in orders && orders[order.orderId] == order && fill.orderId == order.orderId
      requires order.status == Submitted && fill.qty == order.quantity
      modifies `fills, `positions, `log, sink`fills, sink`positions, sink`reports, order, positions.Values
      ensures Valid() && log == old(log) + [fill] && order.status == Filled
      ensures order.quantity == old(order.quantity) && order.price == old(order.price)
      ensures order.history == old(order.history) + [Transition(Submitted, Acknowledged), Transition(Acknowledged, Filled)]
      ensures order.fills == [fill.recordId] && fills == old(fills)[order.orderId := [fill]]
      ensures fill.symbol in positions && Averages(old(ValueOf(fill.symbol)), fill, positions[fill.symbol].value)
      ensures forall s :: s in old(positions) && s != fill.symbol ==> s in positions && unchanged(old(positions)[s])
      ensures sink.reports == old(sink.reports) + [Report(order.orderId, Filled)]
      ensures forall s :: s in positions ==> fresh(positions[s]) || (s in old(positions) && positions[s] == old(positions)[s])
    {
      hide OrdersValid, PositionsMatch, SinkPositions, Averages;
      ghost var before := log;
      BookOrder(order, fill);
      BookPosition(fill, now, before);
      sink.reports := sink.reports + [Report(order.orderId, Filled)];
    }

    /** Records an intent and opens its order. */
    method Register(intent: Intent, orderId: string) returns (order: OrderRecord)
      requires Valid() && orderId !in orders
      modifies `orders, sink`intents
      ensures Valid() && fresh(order) && orders == old(orders)[orderId := order] && order.orderId == orderId
      ensures order.status == Submitted && order.quantity == intent.quantity && order.price == intent.price
      ensures order.symbol == intent.symbol && order.side == intent.side && order.history == [] && order.fills == []
      ensures sink.intents == old(sink.intents) + [intent]
    {
      hide PositionsMatch, SinkPositions, OrdersValid;
      sink.intents := sink.intents + [intent];
      order := new OrderRecord(orderId, intent);
      orders := orders[orderId := order];
      OrdersWithNew(order);
    }

    /** Submits an intent under a new order id: it is filled at once, or fails before or after the order is recorded. */
    method Submit(intent: Intent, orderId: string, recordId: string, now: int) returns (r: Result)
      requires Valid() && orderId !in orders
      modifies this, sink, positions.Values
      ensures Valid() && running == old(running)
      ensures r == if !old(running) then NotRunning
                   else if intent.quantity <= 0.0 then BadQuantity
                   else if intent.blocked then BlockingRisk
                   else if old(sink.closed) then SinkClosed
                   else if BuildFill(intent, orderId, recordId) == None then BadMetadata
                   else Done
      ensures r in {Done, BadMetadata} ==> (r == BadMetadata <==> Unreadable(intent))
      ensures r == Done ==> log == old(log) + [BuildFill(intent, orderId, recordId).value]
      ensures r == Done ==>
                var fill := log[|log| - 1];
                && FillsIntent(intent, fill) && orderId in fills && fills[orderId] == [fill]
                && intent.symbol in positions && Averages(old(ValueOf(intent.symbol)), fill, positions[intent.symbol].value)
      ensures forall s :: s in old(positions) && s != intent.symbol ==> s in positions && unchanged(old(positions)[s])
      ensures r != Done ==> log == old(log) && positions == old(positions)
      ensures orders.Keys == if r in {Done, BadMetadata} then old(orders).Keys + {orderId} else old(orders).Keys
      ensures forall id :: id in old(orders) ==> orders[id] == old(orders)[id] && unchanged(orders[id])
      ensures orderId in orders ==>
                && fresh(orders[orderId]) && orders[orderId].quantity == intent.quantity && orders[orderId].price == intent.price
                && orders[orderId].symbol == intent.symbol && orders[orderId].side == intent.side
                && orders[orderId].status == (if r == Done then Filled else Submitted)
                && orders[orderId].history ==
                   if r == Done then [Transition(Submitted, Acknowledged), Transition(Acknowledged, Filled)] else []
      ensures sink.intents == if r in {Done, BadMetadata} then old(sink.intents) + [intent] else old(sink.intents)
      ensures sink.reports == if r == Done then old(sink.reports) + [Report(orderId, Filled)] else old(sink.reports)
      ensures forall s :: s in positions ==> fresh(positions[s]) || (s in old(positions) && positions[s] == old(positions)[s])
    {
      BuildFillExact(intent, orderId, recordId);
      hide Outcome, Apply, Linked, BuildFill, PositionsMatch, SinkPositions, OrdersValid, FillsIntent, Unreadable, Averages;
      if !running {
        return NotRunning;
      }
      if intent.quantity <= 0.0 {
        return BadQuantity;
      }
      if intent.blocked {
        return BlockingRisk;
      }
      if sink.closed {
        return SinkClosed;
      }
      var order := Register(intent, orderId);
      var fill := BuildFill(intent, orderId, recordId);
      if fill == None {
        return BadMetadata;
      }
      Book(order, fill.value, now);
      r := Done;
    }

    /** Cancels an order that is not filled; the order changes even when its report cannot be recorded. */
    method Cancel(orderId: string) returns (r: Result)
      requires Valid()
      modifies sink`reports, if orderId in orders then {orders[orderId]} else {}
      ensures Valid()
      ensures r == if orderId !in orders then NoSuchOrder
                   else if old(orders[orderId].status) == Filled then AlreadyFilled
                   else if sink.closed then SinkClosed
                   else Done
      ensures r in {NoSuchOrder, AlreadyFilled} ==> (orderId in orders ==> unchanged(orders[orderId]))
      ensures r in {Done, SinkClosed} ==>
                && orders[orderId].status == Cancelled && orders[orderId].quantity == old(orders[orderId].quantity)
                && orders[orderId].history == old(orders[orderId].history) + [Transition(old(orders[orderId].status), Cancelled)]
      ensures sink.reports == if r == Done then old(sink.reports) + [Report(orderId, Cancelled)] else old(sink.reports)
    {
      hide Outcome, Linked, OrdersValid, PositionsMatch, SinkPositions;
      if orderId !in orders {
        return NoSuchOrder;
      }
      var order := orders[orderId];
      if order.status == Filled {
        return AlreadyFilled;
      }
      OrderValidAt(orderId);
      OrdersDistinct(order);
      order.AddTransition(Cancelled);
      OthersStay(order);
      if sink.closed {
        return SinkClosed;
      }
      sink.reports := sink.reports + [Report(orderId, Cancelled)];
      r := Done;
    }

    /** Changes the quantity or price of an order that is not filled. */
    method Modify(orderId: string, quantity: Option<real>, price: Option<real>) returns (r: Result)
      requires Valid()
      modifies sink`reports, if orderId in orders then {orders[orderId]} else {}
      ensures Valid()
      ensures r == if orderId !in orders then NoSuchOrder
                   else if old(orders[orderId].status) == Filled then AlreadyFilled
                   else if sink.closed then SinkClosed
                   else Done
      ensures r in {NoSuchOrder, AlreadyFilled} ==> (orderId in orders ==> unchanged(orders[orderId]))
      ensures r in {Done, SinkClosed} ==>
                && orders[orderId].quantity == (if quantity.Some? then quantity.value else old(orders[orderId].quantity))
                && orders[orderId].price == (if price.Some? then price else old(orders[orderId].price))
                && orders[orderId].status == old(orders[orderId].status) && orders[orderId].history == old(orders[orderId].history)
      ensures sink.reports == if r == Done then old(sink.reports) + [Report(orderId, old(orders[orderId].status))] else old(sink.reports)
    {
      hide Outcome, Linked, OrdersValid, PositionsMatch, SinkPositions;
      if orderId !in orders {
        return NoSuchOrder;
      }
      var order := orders[orderId];
      if order.status == Filled {
        return AlreadyFilled;
      }
      OrderValidAt(orderId);
      OrdersDistinct(order);
      if quantity.Some? {
        order.quantity := quantity.value;
      }
      if price.Some? {
        order.price := price;
      }
      OthersStay(order);
      if sink.closed {
        return SinkClosed;
      }
      sink.reports := sink.reports + [Report(orderId, order.status)];
      r := Done;
    }

    /** The log only grows, records stay where they are, and filled orders are untouched. */
    twostate predicate Kept()
      reads this, orders.Values
    {
      && old(log) <= log
      && (forall id :: id in orders ==> fresh(orders[id]) || (id in old(orders) && orders[id] == old(orders)[id]))
      && (forall s :: s in positions ==> fresh(positions[s]) || (s in old(positions) && positions[s] == old(positions)[s]))
      && (forall id :: id in old(orders) ==> id in orders && orders[id] == old(orders)[id])
      && (forall id :: id in old(orders) && old(orders[id].status) == Filled ==> unchanged(orders[id]))
    }

    method StepCancel(id: string)
      requires Valid()
      modifies sink`reports, orders.Values
      ensures Valid() && Kept()
    {
      hide OrdersValid, PositionsMatch, SinkPositions, Valid;
      var r := Cancel(id);
      if r !in {NoSuchOrder, AlreadyFilled} {
        assert forall x :: x in orders && old(orders[x].status) == Filled ==> unchanged(orders[x]);
      }
    }

    method StepModify(id: string, quantity: Option<real>, price: Option<real>)
      requires Valid()
      modifies sink`reports, orders.Values
      ensures Valid() && Kept()
    {
      hide OrdersValid, PositionsMatch, SinkPositions, Valid;
      var r := Modify(id, quantity, price);
      if r !in {NoSuchOrder, AlreadyFilled} {
        assert forall x :: x in orders && old(orders[x].status) == Filled ==> unchanged(orders[x]);
      }
    }

    method StepSubmit(intent: Intent, id: string, recordId: string, now: int)
      requires Valid()
      modifies this, sink, positions.Values
      ensures Valid() && Kept()
    {
      hide OrdersValid, PositionsMatch, SinkPositions, BuildFill;
      if id !in orders {
        var _ := Submit(intent, id, recordId, now);
      }
    }

    /** One call of any kind; a submit whose order id is taken cannot happen and is passed over. */
    method Step(call: Call)
      requires Valid()
      modifies this, sink, orders.Values, positions.Values
      ensures Valid() && Kept()
    {
      hide OrdersValid, PositionsMatch, SinkPositions;
      match call {
        case StartCall => Start();
        case StopCall => Stop();
        case CloseCall => CloseSink();
        case CancelCall(id) => StepCancel(id);
        case ModifyCall(id, quantity, price) => StepModify(id, quantity, price);
        case SubmitCall(intent, id, recordId, now) => StepSubmit(intent, id, recordId, now);
      }
    }

    /** Any interleaving of calls keeps the ledger valid, only adds to its log, and never touches a filled order. */
    method Run(calls: seq<Call>)
      requires Valid()
      modifies this, sink, orders.Values, positions.Values
      ensures Valid() && Kept()
    {
      hide OrdersValid, PositionsMatch, SinkPositions;
      for i := 0 to |calls|
        invariant Valid() && Kept()
      {
        Step(calls[i]);
      }
    }

    lemma OrdersApart()
      requires OrdersValid()
      ensures forall id :: id in orders ==> orders[id].orderId == id
    {
      forall id | id in orders
        ensures orders[id].orderId == id
      {
        assert OrderValid(id);
      }
    }

    /** The fills of an order as the engine keeps them are those the sink finds. */
    method GetFillsForOrder(orderId: string) returns (r: seq<Fill>)
      requires Valid()
      ensures r == FillsOf(sink.fills, orderId)
      ensures |r| == 1 <==> orderId in orders && orders[orderId].status == Filled
    {
      r := if orderId in fills then fills[orderId] else [];
      if orderId !in orders {
        NoFillsYet(log, orderId);
      } else {
        assert OrderValid(orderId);
      }
    }

    /** The position of a symbol as the engine keeps it is the very object the sink finds, whatever the clock said. */
    method GetPosition(symbol: string) returns (p: PositionState?, q: PositionState?)
      requires Valid()
      ensures p == q
      ensures p == null <==> Of(log, symbol) == []
      ensures p != null ==>
                && PositiveFills(Of(log, symbol)) && p.value == Outcome(Of(log, symbol))
                && p.value.net == NetQuantity(Of(log, symbol)) && p.value.traded == TradedQuantity(Of(log, symbol))
                && p.value.fees == TotalFees(Of(log, symbol))
                && LowestPrice(Of(log, symbol)) <= p.value.avgCost <= HighestPrice(Of(log, symbol))
      ensures p != null ==> exists states :: Traced(Of(log, symbol), states) && states[|Of(log, symbol)|] == p.value
    {
      hide Outcome, Traced;
      p := if symbol in positions then positions[symbol] else null;
      q := sink.GetPositionForSymbol(symbol);
      if p != null {
        assert p in sink.positions;
        OfPositive(log, symbol);
        assert PositionIs(log, symbol);
        OutcomeSums(Of(log, symbol));
        ghost var states := OutcomeTraced(Of(log, symbol));
        AverageCostWithinPrices(Of(log, symbol));
      }
    }
  }

  lemma FillsOfAppend(log: seq<Fill>, f: Fill, id: string)
    ensures FillsOf(log + [f], id) == if f.orderId == id then FillsOf(log, id) + [f] else FillsOf(log, id)
  {
    assert (log + [f])[..|log|] == log;
  }

  lemma OfAppend(log: seq<Fill>, f: Fill, s: string)
    ensures Of(log + [f], s) == if f.symbol == s then Of(log, s) + [f] else Of(log, s)
  {
    assert (log + [f])[..|log|] == log;
  }

  lemma {:induction false} NoFillsYet(log: seq<Fill>, id: string)
    requires forall i :: 0 <= i < |log| ==> log[i].orderId != id
    ensures FillsOf(log, id) == []
  {
    if log != [] {
      NoFillsYet(log[..|log| - 1], id);
    }
  }

  lemma NoFillsFlat()
    ensures PositiveFills([]) && Outcome([]) == FLAT
  {
  }
}
