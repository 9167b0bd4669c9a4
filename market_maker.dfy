/**
 * The market maker of market_maker.py: the order state machine (Order), the
 * accounting of fills, and the engine (MarketMaker) that owns one order slot
 * per side, a signed inventory, cash and a running order id, and reacts to
 * order-book updates and trade prints.
 *
 * The handlers are sequential chains of awaits in the source; here they are
 * ordinary methods. The clock is the parameter `now`, and the transcendental
 * parts of the quote are the parameters `logPart` and `sqrtPart`.
 */
module MarketMaking {
  import opened Wrappers
  import opened OrderBooks
  import opened Avellaneda

  datatype Side = Buy | Sell | Both

  datatype OrderState = Pending | Submitted | Filled | Canceled

  predicate IsTerminal(st: OrderState) {
    st == Filled || st == Canceled
  }

  /** Order.cancel: nothing happens to a filled or canceled order; any other becomes canceled. */
  function AfterCancel(st: OrderState): (r: OrderState)
    ensures IsTerminal(r)
    ensures IsTerminal(st) ==> r == st
    ensures !IsTerminal(st) ==> r == Canceled
  {
    if IsTerminal(st) then st else Canceled
  }

  /** The state change of MarketMaker.fill: only a submitted order is filled. */
  function AfterGuardedFill(st: OrderState): (r: OrderState)
    ensures r == Filled <==> st == Submitted || st == Filled
    ensures r != st ==> st == Submitted
  {
    if st == Submitted then Filled else st
  }

  /** What the engine can do to a resting order. */
  datatype Action = CancelAction | FillAction

  /** The state of an order after the engine applies `actions` to it in turn. */
  function Run(st: OrderState, actions: seq<Action>): OrderState
    decreases |actions|
  {
    if actions == [] then st
    else
      var next := if actions[0] == CancelAction then AfterCancel(st) else AfterGuardedFill(st);
      Run(next, actions[1..])
  }

  /** A filled or canceled order stays as it is, whatever the engine does to it afterwards. */
  lemma {:induction false} TerminalIsFinal(st: OrderState, actions: seq<Action>)
    requires IsTerminal(st)
    ensures Run(st, actions) == st
    decreases |actions|
  {
    if actions != [] {
      TerminalIsFinal(st, actions[1..]);
    }
  }

  /**
   * The first action decides the fate of a submitted order: cancel then fill
   * leaves it canceled, fill then cancel leaves it filled.
   */
  lemma FirstActionDecides(actions: seq<Action>)
    requires actions != []
    ensures Run(Submitted, actions) == (if actions[0] == CancelAction then Canceled else Filled)
  {
    var next := if actions[0] == CancelAction then Canceled else Filled;
    TerminalIsFinal(next, actions[1..]);
  }

  /** Inventory and cash of the engine. */
  datatype Account = Account(inventory: real, cash: real)

  /**
   * The accounting of MarketMaker.fill: a buy adds the quantity to the
   * inventory and pays the notional plus commission, a sell removes the
   * quantity and receives the notional less commission.
   */
  function AfterFill(a: Account, side: Side, quantity: real, limit: real, comission: real): (r: Account)
    ensures side == Buy ==> r.inventory == a.inventory + quantity
    ensures side == Sell ==> r.inventory == a.inventory - quantity
    ensures side == Both ==> r == a
    ensures side != Both ==> Equity(r, limit) == Equity(a, limit) - quantity * limit * comission
  {
    match side
    case Buy => Account(a.inventory + quantity, a.cash - quantity * limit * (1.0 + comission))
    case Sell => Account(a.inventory - quantity, a.cash + quantity * limit * (1.0 - comission))
    case Both => a
  }

  /** AfterFill when `fills` holds, otherwise the account unchanged. */
  function MaybeFill(a: Account, fills: bool, side: Side, quantity: real, limit: real, comission: real): Account {
    if fills then AfterFill(a, side, quantity, limit, comission) else a
  }

  /** get_equity: the inventory valued at the mid-price, plus cash; a flat book, or a zero price, leaves only the cash. */
  function Equity(a: Account, mid: real): (e: real)
    ensures a.inventory == 0.0 || mid == 0.0 ==> e == a.cash
  {
    a.inventory * mid + a.cash
  }

  /** A buy and a sell of the same quantity at the same price, in either order, cost exactly the two commissions. */
  lemma RoundTrip(a: Account, q: real, p: real, c: real)
    ensures AfterFill(AfterFill(a, Buy, q, p, c), Sell, q, p, c) == Account(a.inventory, a.cash - q * p * 2.0 * c)
    ensures AfterFill(AfterFill(a, Sell, q, p, c), Buy, q, p, c) == Account(a.inventory, a.cash - q * p * 2.0 * c)
  {
  }

  /** The order in which two fills are booked does not matter. */
  lemma FillsCommute(a: Account, s1: Side, q1: real, p1: real, s2: Side, q2: real, p2: real, c: real)
    ensures AfterFill(AfterFill(a, s1, q1, p1, c), s2, q2, p2, c) == AfterFill(AfterFill(a, s2, q2, p2, c), s1, q1, p1, c)
  {
  }

  /** A fill moves equity by its edge against the mid-price, less the commission. */
  lemma EquityAfterFill(a: Account, q: real, p: real, c: real, mid: real)
    ensures Equity(AfterFill(a, Buy, q, p, c), mid) == Equity(a, mid) + q * (mid - p) - q * p * c
    ensures Equity(AfterFill(a, Sell, q, p, c), mid) == Equity(a, mid) + q * (p - mid) - q * p * c
  {
  }

  /** One fill: side, quantity and limit price. */
  datatype Execution = Execution(side: Side, quantity: real, price: real)

  function ApplyExecutions(a: Account, execs: seq<Execution>, c: real): Account
    decreases |execs|
  {
    if execs == [] then a
    else ApplyExecutions(AfterFill(a, execs[0].side, execs[0].quantity, execs[0].price, c), execs[1..], c)
  }

  /** The inventory change of one fill. */
  function SignedQuantity(e: Execution): real {
    match e.side
    case Buy => e.quantity
    case Sell => -e.quantity
    case Both => 0.0
  }

  /** The cash change of one fill. */
  function CashChange(e: Execution, c: real): real {
    match e.side
    case Buy => -(e.quantity * e.price * (1.0 + c))
    case Sell => e.quantity * e.price * (1.0 - c)
    case Both => 0.0
  }

  function NetQuantity(execs: seq<Execution>): real {
    if execs == [] then 0.0 else SignedQuantity(execs[0]) + NetQuantity(execs[1..])
  }

  function CashFlow(execs: seq<Execution>, c: real): real {
    if execs == [] then 0.0 else CashChange(execs[0], c) + CashFlow(execs[1..], c)
  }

  /**
   * After any sequence of fills the inventory has moved by the signed filled
   * quantities and the cash by the sell proceeds (less commission) minus the
   * buy costs (plus commission).
   */
  lemma {:induction false} Ledger(a: Account, execs: seq<Execution>, c: real)
    ensures ApplyExecutions(a, execs, c) == Account(a.inventory + NetQuantity(execs), a.cash + CashFlow(execs, c))
    decreases |execs|
  {
    if execs != [] {
      var e := execs[0];
      var b := AfterFill(a, e.side, e.quantity, e.price, c);
      FillIsChange(a, e, c);
      Ledger(b, execs[1..], c);
      assert NetQuantity(execs) == SignedQuantity(e) + NetQuantity(execs[1..]);
      assert CashFlow(execs, c) == CashChange(e, c) + CashFlow(execs[1..], c);
    }
  }

  /** One fill moves the account by its signed quantity and its cash change. */
  lemma FillIsChange(a: Account, e: Execution, c: real)
    ensures AfterFill(a, e.side, e.quantity, e.price, c) == Account(a.inventory + SignedQuantity(e), a.cash + CashChange(e, c))
  {
  }

  /** At expiry check time: an order past its expiry is canceled. */
  function AfterExpiryCheck(st: OrderState, expiryTime: real, now: real): (r: OrderState)
    ensures expiryTime < now ==> IsTerminal(r)
    ensures expiryTime < now && !IsTerminal(st) ==> r == Canceled
    ensures !(expiryTime < now) || IsTerminal(st) ==> r == st
  {
    if expiryTime < now then AfterCancel(st) else st
  }

  class Order {
    const id: int
    const ticker: string
    const quantity: real
    const limit: real
    const side: Side
    const expiryTime: real
    var state: OrderState

    /** A new order is created PENDING and submitted at once; it expires `expiry` after `now`. */
    constructor (id: int, ticker: string, quantity: real, limit: real, side: Side, expiry: real, now: real)
      ensures this.id == id && this.ticker == ticker && this.quantity == quantity
      ensures this.limit == limit && this.side == side && expiryTime == now + expiry
      ensures state == Submitted
    {
      this.ticker := ticker;
      this.quantity := quantity;
      this.limit := limit;
      this.side := side;
      expiryTime := now + expiry;
      this.id := id;
      state := Pending;
      new;
      Submit();
    }

    method Submit()
      modifies this`state
      ensures state == Submitted
    {
      state := Submitted;
    }

    method Cancel()
      modifies this`state
      ensures state == AfterCancel(old(state))
    {
      if state == Canceled || state == Filled {
        return;
      }
      state := Canceled;
    }

    /** Order.fill itself has no guard: the engine's fill supplies it. */
    method Fill()
      modifies this`state
      ensures state == Filled
    {
      state := Filled;
    }
  }

  /** The slot requote does not touch when it handles `side`. */
  function Opposite(side: Side): Side {
    match side
    case Buy => Sell
    case Sell => Buy
    case Both => Both
  }

  /** requote places a new order on a side when none rests there or the resting limit differs from the fresh price. */
  predicate Repriced(slot: Order?, price: real) {
    slot == null || slot.limit != price
  }

  /** How on_orderbook_update ended. */
  datatype BookReaction =
    | NotReady       // the window of increments is not full yet
    | BothSubmitted  // both sides already hold a submitted order
    | ZeroSpread     // k = 2 / spread divides by zero: the handler raises before requoting
    | Requoted

  class MarketMaker {
    const ticker: string
    const orderbook: OrderBook
    const gen: AvellanedaWithTrend
    const expiry: real
    const quantity: real
    const comission: real
    var inventory: real
    var cash: real
    var buyOrder: Order?
    var sellOrder: Order?
    var orderId: int
    /** Every order the engine has created, in creation order. */
    ghost var issued: seq<Order>

    ghost predicate Valid()
      reads this, gen, gen.sBuffer
    {
      && gen.Valid()
      && gen.gamma == 1.0 && gen.ticksize == 0.01 && gen.dt != 0.0 && gen.kRule == SpreadDerivedK
      && gen.sBuffer.length > 0
      && orderId == |issued|
      && (forall i :: 0 <= i < |issued| ==> issued[i].id == i)
      && (buyOrder != null ==> buyOrder in issued && buyOrder.side == Buy)
      && (sellOrder != null ==> sellOrder in issued && sellOrder.side == Sell)
    }

    constructor (ticker: string, interval: int, lookback: int := 20)
      requires lookback > 0
      ensures Valid() && fresh(orderbook) && fresh(gen) && fresh(gen.sBuffer)
      ensures this.ticker == ticker && orderbook.ticker == ticker && orderbook.interval == interval
      ensures gen.sBuffer.length == lookback && gen.sBuffer.appended == [] && gen.s == None
      ensures gen.dt == (if interval == 0 then 1.0 else 0.01)
      ensures inventory == 0.0 && cash == 0.0
      ensures buyOrder == null && sellOrder == null && orderId == 0 && issued == []
      ensures expiry == 1.0 && quantity == 1.0 && comission == 0.001
    {
      this.ticker := ticker;
      orderbook := new OrderBook(ticker, interval);
      gen := new AvellanedaWithTrend(1.0, 0.01, lookback, if interval == 0 then 1.0 else 0.01, SpreadDerivedK);
      inventory := 0.0;
      cash := 0.0;
      buyOrder := null;
      sellOrder := null;
      orderId := 0;
      issued := [];
      expiry := 1.0;
      quantity := 1.0;
      comission := 0.1 / 100.0;
    }

    /** A created order's ids are its creation index, so no two orders share an id. */
    lemma IdsUnique()
      requires Valid()
      ensures forall i, j :: 0 <= i < j < |issued| ==> issued[i].id < issued[j].id
      ensures buyOrder != null && sellOrder != null ==> buyOrder.id != sellOrder.id
    {
    }

    function GetEquity(): (e: real)
      reads this, gen
      ensures gen.s.None? || inventory == 0.0 ==> e == cash
    {
      Equity(Account(inventory, cash), gen.s.GetOr(0.0))
    }

    function Slot(side: Side): Order?
      reads this
    {
      if side == Buy then buyOrder else sellOrder
    }

    /**
     * A new buy at or above the best bid, or a new sell at or below the best
     * ask, is filled at once. The test is against the same side's best price
     * (market_maker.py:167, 177), not the opposite side's, so a buy quoted at
     * the best bid already counts as filled without crossing the spread.
     */
    function Marketable(side: Side, limit: real): bool
      reads gen
    {
      if side == Buy then limit >= gen.bestBid else limit <= gen.bestAsk
    }

    /** `o` is the order requote creates for `side` at `price`, with id `id`. */
    predicate IsNewOrder(o: Order?, id: int, side: Side, price: real, now: real) {
      && o != null && o.id == id && o.side == side && o.limit == price
      && o.quantity == quantity && o.expiryTime == now + expiry && o.ticker == ticker
    }

    /** The fill `o` makes when `hit`; nothing otherwise. */
    function FillOf(a: Account, o: Order?, hit: bool): Account {
      if o != null && hit then AfterFill(a, o.side, o.quantity, o.limit, comission) else a
    }

    /** fill: only a submitted order is filled and booked; any other call changes nothing. */
    method Fill(order: Order)
      modifies this`inventory, this`cash, order`state
      ensures order.state == AfterGuardedFill(old(order.state))
      ensures Account(inventory, cash) ==
              MaybeFill(old(Account(inventory, cash)), old(order.state) == Submitted, order.side, order.quantity, order.limit, comission)
    {
      if order.state == Submitted {
        order.Fill();
        if order.side == Buy {
          inventory := inventory + order.quantity;
          cash := cash - order.quantity * order.limit * (1.0 + comission);
        }
        if order.side == Sell {
          inventory := inventory - order.quantity;
          cash := cash + order.quantity * order.limit * (1.0 - comission);
        }
      }
    }

    /** check_expiry: with both slots occupied, cancels each order whose expiry has passed. */
    method CheckExpiry(now: real)
      requires Valid()
      modifies buyOrder, sellOrder
      ensures buyOrder == null || sellOrder == null ==>
                && (buyOrder != null ==> buyOrder.state == old(buyOrder.state))
                && (sellOrder != null ==> sellOrder.state == old(sellOrder.state))
      ensures buyOrder != null && sellOrder != null ==>
                && buyOrder.state == AfterExpiryCheck(old(buyOrder.state), buyOrder.expiryTime, now)
                && sellOrder.state == AfterExpiryCheck(old(sellOrder.state), sellOrder.expiryTime, now)
    {
      if buyOrder == null || sellOrder == null {
        return;
      }
      if buyOrder.expiryTime < now {
        buyOrder.Cancel();
      }
      if sellOrder.expiryTime < now {
        sellOrder.Cancel();
      }
    }

    /** The quote the generator can give now, with neither mu nor variance supplied. */
    function ReadyToQuote(): bool
      reads gen, gen.sBuffer
    {
      gen.CanQuote(None, None) && !gen.NoQuote(None, None)
    }

    function QuoteAt(q: real, logPart: real, sqrtPart: real): BidAsk
      reads gen, gen.sBuffer
      requires gen.Valid() && ReadyToQuote()
    {
      gen.GetBidAsk(q, None, None, logPart, sqrtPart).value
    }

    /** One side of requote: keep a resting order whose limit is the fresh price, otherwise cancel it and place a new one. */
    method ReplaceIfRepriced(side: Side, price: real, now: real)
      requires Valid() && side != Both
      modifies this`buyOrder, this`sellOrder, this`orderId, this`issued, this`inventory, this`cash, Slot(side)
      ensures Valid()
      ensures Slot(Opposite(side)) == old(Slot(Opposite(side)))
      ensures !Repriced(old(Slot(side)), price) ==>
                && Slot(side) == old(Slot(side)) && Slot(side).state == old(Slot(side).state)
                && orderId == old(orderId) && issued == old(issued)
                && inventory == old(inventory) && cash == old(cash)
      ensures Repriced(old(Slot(side)), price) ==>
                && (old(Slot(side)) != null ==> old(Slot(side)).state == AfterCancel(old(Slot(side).state)))
                && IsNewOrder(Slot(side), old(orderId), side, price, now) && fresh(Slot(side))
                && orderId == old(orderId) + 1 && issued == old(issued) + [Slot(side)]
                && Slot(side).state == (if Marketable(side, price) then Filled else Submitted)
                && Account(inventory, cash) ==
                   MaybeFill(old(Account(inventory, cash)), Marketable(side, price), side, quantity, price, comission)
    {
      var current := Slot(side);
      if current == null || price != current.limit {
        if current != null {
          current.Cancel();
        }
        var order := new Order(orderId, ticker, quantity, price, side, expiry, now);
        if side == Buy {
          buyOrder := order;
        } else {
          sellOrder := order;
        }
        issued := issued + [order];
        orderId := orderId + 1;
        if Marketable(side, order.limit) {
          Fill(order);
        }
      }
    }

    /** The state of the buy slot's order; None for an empty slot. */
    function BuyState(): Option<OrderState>
      reads this, buyOrder
    {
      if buyOrder != null then Some(buyOrder.state) else None
    }

    /** The state of the sell slot's order; None for an empty slot. */
    function SellState(): Option<OrderState>
      reads this, sellOrder
    {
      if sellOrder != null then Some(sellOrder.state) else None
    }

    /**
     * What requote of `side` at `quote` leaves behind, given the slots, their
     * states, the order id, the issued orders and the account before it: a
     * side whose resting limit is the fresh price keeps its order untouched;
     * any other side has its old order (if any) canceled and a new order with
     * the next id (buy first) in the slot, filled exactly when marketable; the
     * account moves by exactly those fills.
     */
    ghost predicate RequoteEffect(side: Side, quote: BidAsk, now: real,
                                  buy0: Order?, buyState0: Option<OrderState>, sell0: Order?, sellState0: Option<OrderState>,
                                  id0: int, issued0: seq<Order>, account0: Account)
      reads this, buyOrder, sellOrder, buy0, sell0, gen
    {
      var buyNew := side != Sell && Repriced(buy0, quote.bid);
      var sellNew := side != Buy && Repriced(sell0, quote.ask);
      && (!buyNew ==> buyOrder == buy0 && BuyState() == buyState0)
      && (buyNew ==>
            && (buy0 != null && buyState0.Some? ==> buy0.state == AfterCancel(buyState0.value))
            && IsNewOrder(buyOrder, id0, Buy, quote.bid, now)
            && buyOrder.state == (if Marketable(Buy, quote.bid) then Filled else Submitted))
      && (!sellNew ==> sellOrder == sell0 && SellState() == sellState0)
      && (sellNew ==>
            && (sell0 != null && sellState0.Some? ==> sell0.state == AfterCancel(sellState0.value))
            && IsNewOrder(sellOrder, id0 + (if buyNew then 1 else 0), Sell, quote.ask, now)
            && sellOrder.state == (if Marketable(Sell, quote.ask) then Filled else Submitted))
      && orderId == id0 + (if buyNew then 1 else 0) + (if sellNew then 1 else 0)
      && issued == issued0 + (if buyNew then [buyOrder] else []) + (if sellNew then [sellOrder] else [])
      && Account(inventory, cash) ==
         MaybeFill(MaybeFill(account0, buyNew && Marketable(Buy, quote.bid), Buy, quantity, quote.bid, comission),
                   sellNew && Marketable(Sell, quote.ask), Sell, quantity, quote.ask, comission)
    }

    /** The state check_expiry at `now` leaves the buy slot's order in. */
    function BuyStateAfterExpiry(now: real): Option<OrderState>
      reads this, buyOrder, sellOrder
    {
      if buyOrder != null && sellOrder != null then Some(AfterExpiryCheck(buyOrder.state, buyOrder.expiryTime, now)) else BuyState()
    }

    /** The state check_expiry at `now` leaves the sell slot's order in. */
    function SellStateAfterExpiry(now: real): Option<OrderState>
      reads this, buyOrder, sellOrder
    {
      if buyOrder != null && sellOrder != null then Some(AfterExpiryCheck(sellOrder.state, sellOrder.expiryTime, now)) else SellState()
    }

    /**
     * requote: prices both sides (or one) from the quote at the current
     * inventory; a side keeps its resting order when the limit is unchanged,
     * otherwise the resting order is canceled and a new one takes the slot,
     * filled at once when marketable.
     */
    method Requote(side: Side, logPart: real, sqrtPart: real, now: real)
      requires Valid() && ReadyToQuote()
      modifies this`buyOrder, this`sellOrder, this`orderId, this`issued, this`inventory, this`cash, buyOrder, sellOrder
      ensures Valid()
      ensures RequoteEffect(side, QuoteAt(old(inventory), logPart, sqrtPart), now,
                            old(buyOrder), old(BuyState()), old(sellOrder), old(SellState()),
                            old(orderId), old(issued), old(Account(inventory, cash)))
      ensures side != Sell && Repriced(old(buyOrder), QuoteAt(old(inventory), logPart, sqrtPart).bid) ==> fresh(buyOrder)
      ensures side != Buy && Repriced(old(sellOrder), QuoteAt(old(inventory), logPart, sqrtPart).ask) ==> fresh(sellOrder)
      ensures side != Sell ==> buyOrder != null && buyOrder.limit == QuoteAt(old(inventory), logPart, sqrtPart).bid
      ensures side != Buy ==> sellOrder != null && sellOrder.limit == QuoteAt(old(inventory), logPart, sqrtPart).ask
    {
      var quote := gen.GetBidAsk(inventory, None, None, logPart, sqrtPart).value;
      if side == Buy || side == Both {
        ReplaceIfRepriced(Buy, quote.bid, now);
      }
      if side == Sell || side == Both {
        ReplaceIfRepriced(Sell, quote.ask, now);
      }
    }

    /** Both slots hold submitted orders that check_expiry at `now` leaves alone. */
    predicate BothResting(now: real)
      reads this, buyOrder, sellOrder
    {
      && buyOrder != null && sellOrder != null
      && buyOrder.state == Submitted && sellOrder.state == Submitted
      && !(buyOrder.expiryTime < now) && !(sellOrder.expiryTime < now)
    }

    /**
     * How the book handler's reaction `r` leaves the engine, given its state
     * before the expiry check (the slots, the states the expiry check leaves
     * them in, whether both were resting, the order id, the issued orders and
     * the account): no requote when the generator is not ready, when both
     * sides were resting, or on a zero spread; otherwise requote of both sides
     * from the quote at the earlier inventory.
     */
    ghost predicate Reacted(r: BookReaction, now: real, logPart: real, sqrtPart: real,
                            buy0: Order?, buyState0: Option<OrderState>, sell0: Order?, sellState0: Option<OrderState>,
                            resting0: bool, id0: int, issued0: seq<Order>, account0: Account)
      reads this, buyOrder, sellOrder, buy0, sell0, gen, gen.sBuffer
    {
      && gen.Valid()
      && (r == NotReady <==> !gen.IsReady())
      && (r == BothSubmitted <==> gen.IsReady() && resting0)
      && (r == ZeroSpread <==> gen.IsReady() && !resting0 && gen.bidAskSpread == 0.0)
      && (r != Requoted ==>
            && buyOrder == buy0 && sellOrder == sell0
            && BuyState() == buyState0 && SellState() == sellState0
            && orderId == id0 && issued == issued0 && Account(inventory, cash) == account0)
      && (r == Requoted ==>
            && ReadyToQuote()
            && RequoteEffect(Both, QuoteAt(account0.inventory, logPart, sqrtPart), now,
                             buy0, buyState0, sell0, sellState0, id0, issued0, account0)
            && buyOrder != null && buyOrder.limit == QuoteAt(account0.inventory, logPart, sqrtPart).bid
            && sellOrder != null && sellOrder.limit == QuoteAt(account0.inventory, logPart, sqrtPart).ask)
    }

    /** The part of on_orderbook_update after the generator has seen the new prices. */
    method ReactToBook(now: real, logPart: real, sqrtPart: real) returns (r: BookReaction)
      requires Valid() && gen.s.Some?
      modifies this`buyOrder, this`sellOrder, this`orderId, this`issued, this`inventory, this`cash, buyOrder, sellOrder
      ensures Valid()
      ensures Reacted(r, now, logPart, sqrtPart,
                      old(buyOrder), old(BuyStateAfterExpiry(now)), old(sellOrder), old(SellStateAfterExpiry(now)),
                      old(BothResting(now)), old(orderId), old(issued), old(Account(inventory, cash)))
      ensures r == Requoted && Repriced(old(buyOrder), QuoteAt(old(inventory), logPart, sqrtPart).bid) ==>
                fresh(buyOrder) && (old(buyOrder) != null ==> old(buyOrder).state == AfterCancel(old(buyOrder.state)))
      ensures r == Requoted && Repriced(old(sellOrder), QuoteAt(old(inventory), logPart, sqrtPart).ask) ==>
                fresh(sellOrder) && (old(sellOrder) != null ==> old(sellOrder).state == AfterCancel(old(sellOrder.state)))
    {
      CheckExpiry(now);
      var buyState := BuyState();
      var sellState := SellState();
      if !gen.IsReady() {
        return NotReady;
      }
      if buyState == Some(Submitted) && sellState == Some(Submitted) {
        return BothSubmitted;
      }
      if gen.bidAskSpread == 0.0 {
        return ZeroSpread;
      }
      Requote(Both, logPart, sqrtPart, now);
      r := Requoted;
    }

    /**
     * on_orderbook_update: feeds the book's best prices to the generator,
     * expires orders, and requotes unless the generator is not ready or both
     * sides already hold a submitted order.
     */
    method OnOrderbookUpdate(now: real, logPart: real, sqrtPart: real) returns (r: BookReaction)
      requires Valid()
      requires orderbook.bids != map[] && orderbook.asks != map[]
      modifies this`buyOrder, this`sellOrder, this`orderId, this`issued, this`inventory, this`cash
      modifies gen, gen.sBuffer, buyOrder, sellOrder
      ensures Valid()
      ensures gen.bestBid == orderbook.GetBestBid() && gen.bestAsk == orderbook.GetBestAsk()
      ensures gen.s == Some(MidPrice(gen.bestBid, gen.bestAsk))
      ensures gen.bidAskSpread == SpreadInTicks(gen.bestBid, gen.bestAsk, gen.ticksize)
      ensures old(gen.s).None? ==> gen.sBuffer.appended == old(gen.sBuffer.appended)
      ensures old(gen.s).Some? ==>
                gen.sBuffer.appended == old(gen.sBuffer.appended) + [(gen.s.value - old(gen.s).value) / gen.dt]
      ensures Reacted(r, now, logPart, sqrtPart,
                      old(buyOrder), old(BuyStateAfterExpiry(now)), old(sellOrder), old(SellStateAfterExpiry(now)),
                      old(BothResting(now)), old(orderId), old(issued), old(Account(inventory, cash)))
      ensures r == Requoted && Repriced(old(buyOrder), QuoteAt(old(inventory), logPart, sqrtPart).bid) ==>
                fresh(buyOrder) && (old(buyOrder) != null ==> old(buyOrder).state == AfterCancel(old(buyOrder.state)))
      ensures r == Requoted && Repriced(old(sellOrder), QuoteAt(old(inventory), logPart, sqrtPart).ask) ==>
                fresh(sellOrder) && (old(sellOrder) != null ==> old(sellOrder).state == AfterCancel(old(sellOrder.state)))
    {
      var bestBid := orderbook.GetBestBid();
      var bestAsk := orderbook.GetBestAsk();
      gen.UpdateOrderBook(bestBid, bestAsk);
      r := ReactToBook(now, logPart, sqrtPart);
    }

    /** Whether a trade at `price` fills the buy order: it exists, is submitted and the price is at or below its limit. */
    predicate BuyHit(price: real)
      reads this, buyOrder
    {
      buyOrder != null && price <= buyOrder.limit && buyOrder.state == Submitted
    }

    /** Whether a trade at `price` fills the sell order: it exists, is submitted and the price is at or above its limit. */
    predicate SellHit(price: real)
      reads this, sellOrder
    {
      sellOrder != null && price >= sellOrder.limit && sellOrder.state == Submitted
    }

    /** on_trade_update: fills each resting order that the trade price crosses. */
    method OnTradeUpdate(price: real)
      requires Valid()
      modifies this`inventory, this`cash, buyOrder, sellOrder
      ensures Valid()
      ensures buyOrder != null ==> buyOrder.state == (if old(BuyHit(price)) then Filled else old(buyOrder.state))
      ensures sellOrder != null ==> sellOrder.state == (if old(SellHit(price)) then Filled else old(sellOrder.state))
      ensures Account(inventory, cash) ==
              FillOf(FillOf(old(Account(inventory, cash)), buyOrder, old(BuyHit(price))), sellOrder, old(SellHit(price)))
    {
      if buyOrder != null && price <= buyOrder.limit && buyOrder.state == Submitted {
        Fill(buyOrder);
      }
      if sellOrder != null && price >= sellOrder.limit && sellOrder.state == Submitted {
        Fill(sellOrder);
      }
    }
  }
}
