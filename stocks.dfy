/**
  Stock prices and stock trading, from src/economy/stocks.js. The price
  history table is kept as the latest row per symbol, the only row the
  code ever reads (`stock_latest`); `stock_write` replaces it. Holdings
  are inventory rows under "stk:" codes in the ledger. Clock readings and
  the outcomes of the random and floating-point steps of a tick are
  inputs.
*/
module Stocks {
  import opened Wrappers
  import opened JsNum
  import opened Db
  import opened Registry

  datatype Row = Row(ts: int, price: int, stateId: int, turnsLeft: int)

  const BoomState: int := 6
  const CrashState: int := 7
  const InjectionState: int := 8

  /** `randInt(a, b)` for the draw `Math.random() = r`. */
  function RandInt(a: int, b: int, r: real): (n: int)
    requires a <= b && 0.0 <= r < 1.0
    ensures a <= n <= b
  {
    var k := (r * (b - a + 1) as real).Floor;
    assert k as real <= r * (b - a + 1) as real < (b - a + 1) as real;
    a + k
  }

  datatype NewState = NewState(stateId: int, turnsLeft: int)

  /**
    `pickNewState`, given the index `sampleIndex` drew and the draw for
    `randInt`: boom and crash last 1..3 ticks, every other state 3..6.
  */
  function PickNewState(id: int, r: real): (ns: NewState)
    requires 0.0 <= r < 1.0
    ensures ns.stateId == id
    ensures id == BoomState || id == CrashState ==> 1 <= ns.turnsLeft <= 3
    ensures !(id == BoomState || id == CrashState) ==> 3 <= ns.turnsLeft <= 6
  {
    var isBoomCrash := id == BoomState || id == CrashState;
    NewState(id, if isBoomCrash then RandInt(1, 3, r) else RandInt(3, 6, r))
  }

  /**
    What one tick draws for one stock: whether the injection roll
    succeeds, `Math.floor(baseline * injBoost)`, the state index and the
    turns draw of `pickNewState`, and `Math.floor(price * mult)`.
  */
  datatype TickDraw = TickDraw(injectRoll: bool, boost: int, stateId: int, turnsRoll: real, scaled: int)

  predicate DrawOk(d: TickDraw) {
    0 <= d.stateId <= 8 && 0.0 <= d.turnsRoll < 1.0
  }

  /** The injection threshold: `Math.floor(baseline * 0.2)`. */
  function InjectionFloor(baseline: int): int {
    (baseline as real * 0.2).Floor
  }

  /** The row `ensureLatestRow` yields: the latest one, or a fresh baseline row. */
  function SeedRow(latest: Option<Row>, def: StockDef, now: int): (r: Row)
    ensures latest.None? ==> r == Row(now, def.baseline, 0, 0)
    ensures latest.Some? ==> r == latest.value
  {
    if latest.Some? then latest.value else Row(now, def.baseline, 0, 0)
  }

  /** The row one tick writes for one stock whose row before the tick is `row`. */
  function TickRow(row: Row, def: StockDef, now: int, d: TickDraw): (r: Row)
    requires DrawOk(d)
    ensures r.ts == now && r.price >= 1 && r.turnsLeft >= 0
  {
    if row.turnsLeft <= 0 && row.price <= InjectionFloor(def.baseline) && d.injectRoll then
      Row(now, Max(1, row.price + Max(1, d.boost)), InjectionState, 0)
    else
      var ns := if row.turnsLeft <= 0 then PickNewState(d.stateId, d.turnsRoll) else NewState(row.stateId, row.turnsLeft);
      Row(now, Max(1, d.scaled), ns.stateId, Max(0, ns.turnsLeft - 1))
  }

  /**
    The turn bookkeeping of a tick: a stock with turns left keeps its
    state and loses one turn; an exhausted one that is not injected picks
    a state and spends one of its fresh turns.
  */
  lemma TickTurns(row: Row, def: StockDef, now: int, d: TickDraw)
    requires DrawOk(d)
    ensures var r := TickRow(row, def, now, d);
      && (row.turnsLeft > 0 ==> r.stateId == row.stateId && r.turnsLeft == row.turnsLeft - 1)
      && (row.turnsLeft <= 0 && !(row.price <= InjectionFloor(def.baseline) && d.injectRoll) ==>
            r.stateId == d.stateId
            && (d.stateId == BoomState || d.stateId == CrashState ==> 0 <= r.turnsLeft <= 2)
            && (!(d.stateId == BoomState || d.stateId == CrashState) ==> 2 <= r.turnsLeft <= 5))
  {
  }

  /** An injection lifts the price by at least 1 and at least the drawn bump. */
  lemma InjectionRaisesPrice(row: Row, def: StockDef, now: int, d: TickDraw)
    requires DrawOk(d) && row.turnsLeft <= 0 && row.price <= InjectionFloor(def.baseline) && d.injectRoll
    ensures var r := TickRow(row, def, now, d);
      r.stateId == InjectionState && r.turnsLeft == 0 && r.price >= row.price + Max(1, d.boost)
  {
  }

  /** Every stock symbol of the list appears once. */
  predicate Distinct(stocks: seq<StockDef>) {
    forall j, k :: 0 <= j < k < |stocks| ==> stocks[j].symbol != stocks[k].symbol
  }

  /** The symbols of the enabled stocks among the first k. */
  function Written(stocks: seq<StockDef>, k: nat): (w: set<string>)
    requires k <= |stocks|
    ensures forall i :: 0 <= i < k && stocks[i].enabled ==> stocks[i].symbol in w
  {
    if k == 0 then {} else Written(stocks, k - 1) + (if stocks[k - 1].enabled then {stocks[k - 1].symbol} else {})
  }

  /** A symbol no stock before k carries is not among their writes. */
  lemma {:induction false} NotWritten(stocks: seq<StockDef>, k: nat, s: string)
    requires k <= |stocks| && forall i :: 0 <= i < k ==> stocks[i].symbol != s
    ensures s !in Written(stocks, k)
  {
    if k > 0 {
      NotWritten(stocks, k - 1, s);
    }
  }

  predicate DrawsOk(stocks: seq<StockDef>, draws: seq<TickDraw>) {
    |stocks| == |draws| && forall i :: 0 <= i < |draws| ==> DrawOk(draws[i])
  }

  /** A symbol's row in a table, if it has one. */
  function LatestIn(m: map<string, Row>, symbol: string): (r: Option<Row>)
    ensures r.Some? <==> symbol in m
    ensures r.Some? ==> r.value == m[symbol]
  {
    if symbol in m then Some(m[symbol]) else None
  }

  /** The row a tick writes for one enabled stock of the table `m`. */
  function TickOf(m: map<string, Row>, def: StockDef, now: int, d: TickDraw): Row
    requires DrawOk(d)
  {
    TickRow(SeedRow(LatestIn(m, def.symbol), def, now), def, now, d)
  }

  /** The latest rows after ticking the first k stocks of a catalogue, each with its own draws. */
  function Ticked(stocks: seq<StockDef>, m: map<string, Row>, now: int, draws: seq<TickDraw>, k: nat): (m': map<string, Row>)
    requires k <= |stocks| && DrawsOk(stocks, draws)
    ensures m'.Keys == m.Keys + Written(stocks, k)
  {
    if k == 0 then m
    else
      var prev := Ticked(stocks, m, now, draws, k - 1);
      var def := stocks[k - 1];
      if def.enabled then prev[def.symbol := TickOf(prev, def, now, draws[k - 1])] else prev
  }

  /** A symbol the first k stocks do not write keeps its row. */
  lemma {:induction false} TickedKeeps(stocks: seq<StockDef>, m: map<string, Row>, now: int, draws: seq<TickDraw>, k: nat, s: string)
    requires k <= |stocks| && DrawsOk(stocks, draws)
    requires s in m && s !in Written(stocks, k)
    ensures Ticked(stocks, m, now, draws, k)[s] == m[s]
  {
    if k > 0 {
      assert s !in Written(stocks, k - 1);
      TickedKeeps(stocks, m, now, draws, k - 1, s);
    }
  }

  /** The i-th stock's row after the first k are ticked, for an enabled stock i < k. */
  lemma {:induction false} TickedRow(stocks: seq<StockDef>, m: map<string, Row>, now: int, draws: seq<TickDraw>, k: nat, i: nat)
    requires k <= |stocks| && DrawsOk(stocks, draws) && Distinct(stocks)
    requires i < k && stocks[i].enabled
    ensures Ticked(stocks, m, now, draws, k)[stocks[i].symbol] == TickOf(m, stocks[i], now, draws[i])
  {
    var prev := Ticked(stocks, m, now, draws, k - 1);
    var def := stocks[k - 1];
    if i < k - 1 {
      assert stocks[i].symbol != def.symbol;
      TickedRow(stocks, m, now, draws, k - 1, i);
    } else {
      NotWritten(stocks, k - 1, def.symbol);
      if def.symbol in m {
        TickedKeeps(stocks, m, now, draws, k - 1, def.symbol);
      }
      assert LatestIn(prev, def.symbol) == LatestIn(m, def.symbol);
    }
  }

  /**
    A tick writes each enabled stock's row from that stock's own row
    before the tick, and leaves every other symbol alone.
  */
  lemma TickedRows(stocks: seq<StockDef>, m: map<string, Row>, now: int, draws: seq<TickDraw>)
    requires DrawsOk(stocks, draws) && Distinct(stocks)
    ensures forall i :: 0 <= i < |stocks| && stocks[i].enabled ==>
      Ticked(stocks, m, now, draws, |stocks|)[stocks[i].symbol] == TickOf(m, stocks[i], now, draws[i])
    ensures forall s :: s in m && s !in Written(stocks, |stocks|) ==> Ticked(stocks, m, now, draws, |stocks|)[s] == m[s]
  {
    forall i | 0 <= i < |stocks| && stocks[i].enabled
      ensures Ticked(stocks, m, now, draws, |stocks|)[stocks[i].symbol] == TickOf(m, stocks[i], now, draws[i])
    {
      TickedRow(stocks, m, now, draws, |stocks|, i);
    }
    forall s | s in m && s !in Written(stocks, |stocks|)
      ensures Ticked(stocks, m, now, draws, |stocks|)[s] == m[s]
    {
      TickedKeeps(stocks, m, now, draws, |stocks|, s);
    }
  }

  /** No stored price falls below 1 and no turn count below 0. */
  ghost predicate RowsOk(m: map<string, Row>) {
    forall s :: s in m ==> m[s].price >= 1 && m[s].turnsLeft >= 0
  }

  /** Distinct symbols and positive baselines, as the five listed stocks have. */
  predicate CatalogueOk(stocks: seq<StockDef>) {
    Distinct(stocks) && forall i :: 0 <= i < |stocks| ==> stocks[i].baseline >= 1
  }

  datatype StockError = NonPositiveQuantity | UnknownStock | InsufficientFunds(need: int) | TooFew(have: int)

  /**
    The checks `buyStock` makes, in order, before it trades: a quantity
    that is not positive after `| 0`, a symbol that names no enabled
    stock, a cost above the balance. `Ok` carries the price, the latest
    row's or the baseline.
  */
  function BuyCheck(stocks: seq<StockDef>, latestPrice: Option<int>, bal: int, symbol: string, rawQty: int)
    : (r: Result<int, StockError>)
    ensures ToInt32(rawQty) <= 0 <==> r == Err(NonPositiveQuantity)
    ensures ToInt32(rawQty) > 0 ==> (FindStock(stocks, symbol).None? <==> r == Err(UnknownStock))
    ensures (r.Ok? || (r.Err? && r.error.InsufficientFunds?)) <==> ToInt32(rawQty) > 0 && FindStock(stocks, symbol).Some?
    ensures r.Ok? ==> r.value == latestPrice.GetOr(FindStock(stocks, symbol).value.baseline)
    ensures r.Ok? ==> Cost(r.value, ToInt32(rawQty)) <= bal
    ensures r.Err? && r.error.InsufficientFunds? ==>
      r.error.need == Cost(latestPrice.GetOr(FindStock(stocks, symbol).value.baseline), ToInt32(rawQty))
      && r.error.need > bal
  {
    var qty := ToInt32(rawQty);
    if qty <= 0 then Err(NonPositiveQuantity)
    else match FindStock(stocks, symbol)
      case None => Err(UnknownStock)
      case Some(def) =>
        var price := latestPrice.GetOr(def.baseline);
        if bal < Cost(price, qty) then Err(InsufficientFunds(Cost(price, qty))) else Ok(price)
  }

  /**
    The checks `sellStock` makes, in order: the same quantity and symbol
    checks as a purchase, then a holding below the quantity. `Ok` carries
    the price.
  */
  function SellCheck(stocks: seq<StockDef>, latestPrice: Option<int>, have: int, symbol: string, rawQty: int)
    : (r: Result<int, StockError>)
    ensures ToInt32(rawQty) <= 0 <==> r == Err(NonPositiveQuantity)
    ensures ToInt32(rawQty) > 0 ==> (FindStock(stocks, symbol).None? <==> r == Err(UnknownStock))
    ensures (r.Ok? || (r.Err? && r.error.TooFew?)) <==> ToInt32(rawQty) > 0 && FindStock(stocks, symbol).Some?
    ensures r.Ok? ==> r.value == latestPrice.GetOr(FindStock(stocks, symbol).value.baseline)
    ensures r.Ok? ==> ToInt32(rawQty) <= have
    ensures r.Err? && r.error.TooFew? ==> r.error.have == have < ToInt32(rawQty)
  {
    var qty := ToInt32(rawQty);
    if qty <= 0 then Err(NonPositiveQuantity)
    else match FindStock(stocks, symbol)
      case None => Err(UnknownStock)
      case Some(def) =>
        if have < qty then Err(TooFew(have)) else Ok(latestPrice.GetOr(def.baseline))
  }

  /**
    A purchase of a positive quantity of a listed stock goes through
    exactly when the balance covers its cost, and is otherwise refused
    with that cost as the amount needed.
  */
  lemma BuyIffCovered(stocks: seq<StockDef>, latestPrice: Option<int>, bal: int, symbol: string, rawQty: int)
    requires ToInt32(rawQty) > 0 && FindStock(stocks, symbol).Some?
    ensures var cost := Cost(latestPrice.GetOr(FindStock(stocks, symbol).value.baseline), ToInt32(rawQty));
      && (BuyCheck(stocks, latestPrice, bal, symbol, rawQty).Ok? <==> cost <= bal)
      && (cost > bal ==> BuyCheck(stocks, latestPrice, bal, symbol, rawQty) == Err(InsufficientFunds(cost)))
  {
  }

  /**
    A purchase the balance covers debits exactly its cost: the balance is
    below 2^31, so nothing wraps.
  */
  lemma BuyDebitsCost(bal: int, price: int, qty: int)
    requires 0 <= Cost(price, qty) <= bal < TWO_31
    ensures NextBalance(bal, -Cost(price, qty)) == bal - Cost(price, qty)
  {
  }

  /** A sale of at most the holding removes exactly that many shares. */
  lemma SellRemovesShares(have: int, qty: int)
    requires 0 < qty <= have && qty < TWO_31
    ensures NextQty(have, -qty) == have - qty
  {
  }

  /**
    Proceeds are credited through `| 0` without a bound: a sale worth
    between 2^31 and 2^32 chips lowers the seller's balance instead of
    raising it.
  */
  lemma HugeSaleLowersBalance(bal: int, proceeds: int)
    requires 0 <= bal < TWO_31 && TWO_31 <= proceeds < TWO_32
    ensures NextBalance(bal, proceeds) < bal || (bal == 0 && NextBalance(bal, proceeds) == 0)
  {
    assert ToInt32(proceeds) == proceeds - TWO_32;
  }

  datatype Sale = Sale(price: int, proceeds: int, newBal: int)

  /**
    The price table, with the stock catalogue it serves. The constructor
    installs the five listed stocks.
  */
  class Market {
    const stocks: seq<StockDef>
    var latest: map<string, Row>

    ghost predicate Valid()
      reads this
    {
      CatalogueOk(stocks) && RowsOk(latest)
    }

    constructor ()
      ensures stocks == Stocks && latest == map[] && Valid()
    {
      StocksDistinct();
      stocks := Stocks;
      latest := map[];
    }

    /** `stock_latest`. */
    function Latest(symbol: string): (r: Option<Row>)
      reads this
      ensures r == LatestIn(latest, symbol)
    {
      if symbol in latest then Some(latest[symbol]) else None
    }

    /** The price of the latest row, if there is one. */
    function LatestPrice(symbol: string): (p: Option<int>)
      reads this
      ensures p.Some? <==> symbol in latest
      ensures p.Some? ==> p.value == latest[symbol].price
    {
      if symbol in latest then Some(latest[symbol].price) else None
    }

    /** `stock_write`. */
    method Write(symbol: string, row: Row)
      modifies this
      ensures latest == old(latest)[symbol := row]
      ensures old(Valid()) && row.price >= 1 && row.turnsLeft >= 0 ==> Valid()
    {
      latest := latest[symbol := row];
    }

    /** `ensureLatestRow`: the latest row, seeding a baseline row with state 0 and no turns when there is none. */
    method EnsureLatestRow(def: StockDef, now: int) returns (row: Row)
      modifies this
      ensures row == SeedRow(old(Latest(def.symbol)), def, now)
      ensures latest == old(latest)[def.symbol := row]
      ensures old(Valid()) && def.baseline >= 1 ==> Valid()
    {
      var found := Latest(def.symbol);
      if found.Some? {
        row := found.value;
        return;
      }
      row := Row(now, def.baseline, 0, 0);
      Write(def.symbol, row);
    }

    /** The body of the `tickAllStocks` loop for one enabled stock. */
    method TickOne(def: StockDef, now: int, d: TickDraw)
      requires DrawOk(d)
      modifies this
      ensures latest == old(latest)[def.symbol := TickOf(old(latest), def, now, d)]
      ensures old(Valid()) && def.baseline >= 1 ==> Valid()
    {
      var row := EnsureLatestRow(def, now);
      if row.turnsLeft <= 0 && row.price <= InjectionFloor(def.baseline) && d.injectRoll {
        var next := Row(now, Max(1, row.price + Max(1, d.boost)), InjectionState, 0);
        assert next == TickRow(row, def, now, d);
        Write(def.symbol, next);
        return;
      }
      var stateId, turnsLeft := row.stateId, row.turnsLeft;
      if turnsLeft <= 0 {
        var ns := PickNewState(d.stateId, d.turnsRoll);
        stateId, turnsLeft := ns.stateId, ns.turnsLeft;
      }
      var next := Row(now, Max(1, d.scaled), stateId, Max(0, turnsLeft - 1));
      assert next == TickRow(row, def, now, d);
      Write(def.symbol, next);
    }

    /** `tickAllStocks`: one new row per enabled stock, from the draws made for it. */
    method TickAllStocks(now: int, draws: seq<TickDraw>)
      requires DrawsOk(stocks, draws)
      modifies this
      ensures latest == Ticked(stocks, old(latest), now, draws, |stocks|)
      ensures old(Valid()) ==> Valid()
    {
      var i := 0;
      while i < |stocks|
        invariant 0 <= i <= |stocks|
        invariant latest == Ticked(stocks, old(latest), now, draws, i)
        invariant old(Valid()) ==> Valid()
      {
        if stocks[i].enabled {
          TickOne(stocks[i], now, draws[i]);
        }
        i := i + 1;
      }
    }

    /** `resetStock`: a baseline row with state 0 and no turns; the baseline is returned. */
    method ResetStock(symbol: string, now: int) returns (r: Result<int, StockError>)
      modifies this
      ensures FindStock(stocks, symbol).None? ==> r == Err(UnknownStock) && latest == old(latest)
      ensures FindStock(stocks, symbol).Some? ==>
        var def := FindStock(stocks, symbol).value;
        r == Ok(def.baseline) && latest == old(latest)[symbol := Row(now, def.baseline, 0, 0)]
      ensures old(Valid()) ==> Valid()
    {
      var def := FindStock(stocks, symbol);
      if def.None? {
        return Err(UnknownStock);
      }
      assert def.value.baseline >= 1 || !Valid() by {
        if Valid() {
          var i :| 0 <= i < |stocks| && stocks[i] == def.value;
        }
      }
      Write(symbol, Row(now, def.value.baseline, 0, 0));
      r := Ok(def.value.baseline);
    }

    /** `resetAllStocks`: every enabled stock back to its baseline row, no other symbol touched. */
    method ResetAllStocks(now: int)
      requires Valid()
      modifies this
      ensures latest.Keys == old(latest).Keys + Written(stocks, |stocks|)
      ensures forall i :: 0 <= i < |stocks| && stocks[i].enabled ==>
        latest[stocks[i].symbol] == Row(now, stocks[i].baseline, 0, 0)
      ensures forall s :: s in old(latest) && s !in Written(stocks, |stocks|) ==> latest[s] == old(latest)[s]
      ensures Valid()
    {
      var i := 0;
      while i < |stocks|
        invariant 0 <= i <= |stocks|
        invariant latest.Keys == old(latest).Keys + Written(stocks, i)
        invariant forall j :: 0 <= j < i && stocks[j].enabled ==> latest[stocks[j].symbol] == Row(now, stocks[j].baseline, 0, 0)
        invariant forall s :: s in old(latest) && s !in Written(stocks, i) ==> latest[s] == old(latest)[s]
        invariant Valid()
      {
        var def := stocks[i];
        if def.enabled {
          Write(def.symbol, Row(now, def.baseline, 0, 0));
        }
        forall j | 0 <= j <= i && stocks[j].enabled
          ensures latest[stocks[j].symbol] == Row(now, stocks[j].baseline, 0, 0)
        {
          if j < i {
            assert stocks[j].symbol != def.symbol;
          }
        }
        i := i + 1;
      }
    }

    /**
      `buyStock`: after `BuyCheck` passes, debit price x qty and add qty to
      the "stk:" holding; a rejection changes nothing.
    */
    method BuyStock(db: Ledger, u: UserId, symbol: string, rawQty: int) returns (r: Result<int, StockError>)
      modifies db
      ensures r == BuyCheck(stocks, LatestPrice(symbol), old(db.Balance(u)), symbol, rawQty)
      ensures r.Err? ==> db.balances == old(db.balances) && db.inventory == old(db.inventory)
      ensures r.Ok? ==>
        var qty := ToInt32(rawQty);
        var code := ToStockCode(symbol);
        && db.balances == Credited(old(db.balances), u, -Cost(r.value, qty))
        && db.inventory == old(db.inventory)[(u, code) := NextQty(old(db.Holding(u, code)), qty)]
      ensures old(db.Valid()) ==> db.Valid()
    {
      var qty := ToInt32(rawQty);
      if qty <= 0 {
        return Err(NonPositiveQuantity);
      }
      var def := FindStock(stocks, symbol);
      if def.None? {
        return Err(UnknownStock);
      }
      var price := if symbol in latest then latest[symbol].price else def.value.baseline;
      var cost := Cost(price, qty);
      var bal := db.Balance(u);
      if bal < cost {
        return Err(InsufficientFunds(cost));
      }
      var _ := db.AddBalance(u, -cost);
      var _ := db.AddItem(u, ToStockCode(symbol), qty);
      r := Ok(price);
    }

    /**
      `sellStock`: after `SellCheck` passes, remove qty shares, credit
      price x qty and report the new balance; a rejection changes nothing.
    */
    method SellStock(db: Ledger, u: UserId, symbol: string, rawQty: int) returns (r: Result<Sale, StockError>)
      modifies db
      ensures var c := SellCheck(stocks, LatestPrice(symbol), old(db.Holding(u, ToStockCode(symbol))), symbol, rawQty);
        && (c.Err? ==> r == Err(c.error))
        && (c.Ok? ==> r.Ok? && r.value.price == c.value && r.value.proceeds == Cost(c.value, ToInt32(rawQty)))
      ensures r.Err? ==> db.balances == old(db.balances) && db.inventory == old(db.inventory)
      ensures r.Ok? ==>
        var qty := ToInt32(rawQty);
        var code := ToStockCode(symbol);
        && db.inventory == old(db.inventory)[(u, code) := NextQty(old(db.Holding(u, code)), -qty)]
        && db.balances == Credited(old(db.balances), u, r.value.proceeds)
        && r.value.newBal == db.balances[u]
      ensures old(db.Valid()) ==> db.Valid()
    {
      var qty := ToInt32(rawQty);
      if qty <= 0 {
        return Err(NonPositiveQuantity);
      }
      var def := FindStock(stocks, symbol);
      if def.None? {
        return Err(UnknownStock);
      }
      var price := if symbol in latest then latest[symbol].price else def.value.baseline;
      var code := ToStockCode(symbol);
      var have := db.Holding(u, code);
      if have < qty {
        return Err(TooFew(have));
      }
      var _ := db.AddItem(u, code, -qty);
      var proceeds := Cost(price, qty);
      var newBal := db.AddBalance(u, proceeds);
      r := Ok(Sale(price, proceeds, newBal));
    }
  }
}
