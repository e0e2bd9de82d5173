/**
  The item and stock catalogue of src/registry/index.js and
  src/registry/stocks.js. Inventory rows store prefixed codes: "itm:" for
  items and "stk:" for stocks. The item list (src/registry/items.js) is
  not part of this model, so the functions that consult it take it as a
  parameter.
*/
module Registry {
  import opened Wrappers

  datatype ItemDef = ItemDef(code: string, name: string, sell: Option<int>, enabled: bool)

  datatype StockDef = StockDef(symbol: string, name: string, flavor: string, baseline: int, enabled: bool)

  const Stocks: seq<StockDef> := [
    StockDef("cc", "CoinCoin", "TEMP", 1000, true),
    StockDef("dc", "Dice Corp", "TEMP", 2500, true),
    StockDef("sthree", "Stock Three", "The budget just wasn't there to add a fifth stock name.", 5000, true),
    StockDef("bod", "Bank of Discord", "The best place to lose all your money.", 12500, true),
    StockDef("dentl", "DENTL", "Nobody actually knows what this is, but it's worth a lot.", 25000, true)
  ]

  const ItemPrefix: string := "itm:"
  const StockPrefix: string := "stk:"

  /** `toItemCode`. */
  function ToItemCode(code: string): (inv: string)
    ensures ItemPrefix <= inv && inv[4..] == code
  {
    ItemPrefix + code
  }

  /** `toStockCode`. */
  function ToStockCode(symbol: string): (inv: string)
    ensures StockPrefix <= inv && inv[4..] == symbol
  {
    StockPrefix + symbol
  }

  /**
    `itemMap`: the enabled items keyed by code. A `Map` built from a list
    keeps the last entry of a repeated key.
  */
  function ItemMap(items: seq<ItemDef>): (m: map<string, ItemDef>)
    ensures forall c :: c in m ==> m[c].code == c && m[c].enabled && m[c] in items
  {
    if items == [] then map[]
    else
      var last := items[|items| - 1];
      var m := ItemMap(items[..|items| - 1]);
      if last.enabled then m[last.code := last] else m
  }

  /** `stockMap`, built the same way from `Stocks`. */
  function StockMapOf(stocks: seq<StockDef>): (m: map<string, StockDef>)
    ensures forall s :: s in m ==> m[s].symbol == s && m[s].enabled && m[s] in stocks
  {
    if stocks == [] then map[]
    else
      var last := stocks[|stocks| - 1];
      var m := StockMapOf(stocks[..|stocks| - 1]);
      if last.enabled then m[last.symbol := last] else m
  }

  function StockMap(): map<string, StockDef> { StockMapOf(Stocks) }

  /** A code is in `itemMap` exactly when some enabled item carries it. */
  lemma {:induction false} ItemMapHas(items: seq<ItemDef>, c: string)
    ensures c in ItemMap(items) <==> exists i :: 0 <= i < |items| && items[i].code == c && items[i].enabled
  {
    if items != [] {
      var init := items[..|items| - 1];
      ItemMapHas(init, c);
      if c in ItemMap(init) {
        var i :| 0 <= i < |init| && init[i].code == c && init[i].enabled;
        assert items[i] == init[i];
      }
      if exists i :: 0 <= i < |items| && items[i].code == c && items[i].enabled {
        var i :| 0 <= i < |items| && items[i].code == c && items[i].enabled;
        if i < |init| {
          assert init[i] == items[i];
        }
      }
    }
  }

  /** A symbol is in a stock map exactly when some enabled stock carries it. */
  lemma {:induction false} StockMapHas(stocks: seq<StockDef>, sym: string)
    ensures sym in StockMapOf(stocks) <==> exists i :: 0 <= i < |stocks| && stocks[i].symbol == sym && stocks[i].enabled
  {
    if stocks != [] {
      var init := stocks[..|stocks| - 1];
      StockMapHas(init, sym);
      if sym in StockMapOf(init) {
        var i :| 0 <= i < |init| && init[i].symbol == sym && init[i].enabled;
        assert stocks[i] == init[i];
      }
      if exists i :: 0 <= i < |stocks| && stocks[i].symbol == sym && stocks[i].enabled {
        var i :| 0 <= i < |stocks| && stocks[i].symbol == sym && stocks[i].enabled;
        if i < |init| {
          assert init[i] == stocks[i];
        }
      }
    }
  }

  /** With distinct symbols every enabled stock is what the map holds under its symbol. */
  lemma {:induction false} StockMapDistinct(stocks: seq<StockDef>, i: nat)
    requires i < |stocks| && stocks[i].enabled
    requires forall j, k :: 0 <= j < k < |stocks| ==> stocks[j].symbol != stocks[k].symbol
    ensures stocks[i].symbol in StockMapOf(stocks) && StockMapOf(stocks)[stocks[i].symbol] == stocks[i]
  {
    var init := stocks[..|stocks| - 1];
    if i < |init| {
      assert init[i] == stocks[i];
      StockMapDistinct(init, i);
    }
  }

  /** The five symbols are distinct; every stock is enabled and has a positive baseline. */
  lemma StocksDistinct()
    ensures forall j, k :: 0 <= j < k < |Stocks| ==> Stocks[j].symbol != Stocks[k].symbol
    ensures forall i :: 0 <= i < |Stocks| ==> Stocks[i].enabled && Stocks[i].baseline >= 1
  {
    assert Stocks[0].symbol[0] == 'c' && Stocks[1].symbol[0] == 'd' && Stocks[2].symbol[0] == 's';
    assert Stocks[3].symbol[0] == 'b' && Stocks[4].symbol[0] == 'd';
    assert Stocks[1].symbol[1] != Stocks[4].symbol[1];
  }

  /** Every one of the five stocks is held in `stockMap` under its symbol, and nothing else is. */
  lemma StockMapIsStocks(sym: string)
    ensures sym in StockMap() <==> exists i :: 0 <= i < |Stocks| && Stocks[i].symbol == sym
    ensures forall i :: 0 <= i < |Stocks| ==> Stocks[i].symbol in StockMap() && StockMap()[Stocks[i].symbol] == Stocks[i]
  {
    StocksDistinct();
    StockMapHas(Stocks, sym);
    forall i | 0 <= i < |Stocks|
      ensures Stocks[i].symbol in StockMap() && StockMap()[Stocks[i].symbol] == Stocks[i]
    {
      StockMapDistinct(Stocks, i);
    }
  }

  /** A code with the stock prefix does not have the item prefix. */
  lemma PrefixesDiffer(x: string)
    requires StockPrefix <= x
    ensures !(ItemPrefix <= x)
  {
    assert x[0] == 's';
  }

  datatype CatalogEntry =
    | ItemEntry(invCode: string, code: string, item: ItemDef)
    | StockEntry(invCode: string, symbol: string, stock: StockDef)

  /** `getCatalogEntry`: resolve a stored inventory code by its prefix; anything else is null. */
  function CatalogEntryOf(items: seq<ItemDef>, invCode: string): (e: Option<CatalogEntry>)
    ensures e.Some? ==> e.value.invCode == invCode
    ensures !(ItemPrefix <= invCode) && !(StockPrefix <= invCode) ==> e.None?
  {
    if ItemPrefix <= invCode then
      var code := invCode[4..];
      var m := ItemMap(items);
      if code in m then Some(ItemEntry(invCode, code, m[code])) else None
    else if StockPrefix <= invCode then
      var symbol := invCode[4..];
      var m := StockMap();
      if symbol in m then Some(StockEntry(invCode, symbol, m[symbol])) else None
    else None
  }

  /** An item code resolves to its enabled item and to nothing when no enabled item has it. */
  lemma ItemCodeResolves(items: seq<ItemDef>, c: string)
    ensures var e := CatalogEntryOf(items, ToItemCode(c));
      && (e.Some? <==> exists i :: 0 <= i < |items| && items[i].code == c && items[i].enabled)
      && (e.Some? ==> e.value.ItemEntry? && e.value.code == c && e.value.item.code == c
                      && e.value.item.enabled && e.value.item in items)
  {
    ItemMapHas(items, c);
  }

  /** A stock code resolves to that stock exactly when the symbol is one of the five. */
  lemma StockCodeResolves(items: seq<ItemDef>, s: string)
    ensures var e := CatalogEntryOf(items, ToStockCode(s));
      && (e.Some? <==> exists i :: 0 <= i < |Stocks| && Stocks[i].symbol == s)
      && (e.Some? ==> e.value.StockEntry? && e.value.symbol == s && e.value.stock.symbol == s)
  {
    StockMapIsStocks(s);
    PrefixesDiffer(ToStockCode(s));
  }

  /** `getItemDef`. */
  function ItemDefOf(items: seq<ItemDef>, code: string): (d: Option<ItemDef>)
    ensures d.Some? ==> d.value.code == code && d.value.enabled && d.value in items
  {
    var m := ItemMap(items);
    if code in m then Some(m[code]) else None
  }

  /** `getStockDef`. */
  function StockDefOf(symbol: string): (d: Option<StockDef>)
    ensures d.Some? ==> d.value.symbol == symbol && d.value in Stocks
  {
    var m := StockMap();
    if symbol in m then Some(m[symbol]) else None
  }

  /** `getItemDef` sees the same item as the "itm:" code that stores it. */
  lemma ItemDefAgrees(items: seq<ItemDef>, code: string)
    ensures var e := CatalogEntryOf(items, ToItemCode(code));
      ItemDefOf(items, code) == (if e.Some? then Some(e.value.item) else None)
  {
  }

  /** `displayName`: the code itself when unknown, the item's name, or "name (symbol)" for a stock. */
  function DisplayName(items: seq<ItemDef>, invCode: string): (s: string)
  {
    match CatalogEntryOf(items, invCode)
    case None => invCode
    case Some(ItemEntry(_, _, d)) => d.name
    case Some(StockEntry(_, symbol, d)) => d.name + " (" + symbol + ")"
  }

  /** The three cases of `displayName`, stated against the catalogue. */
  lemma DisplayNameCases(items: seq<ItemDef>, invCode: string)
    ensures CatalogEntryOf(items, invCode).None? ==> DisplayName(items, invCode) == invCode
    ensures ItemPrefix <= invCode && invCode[4..] in ItemMap(items) ==>
      DisplayName(items, invCode) == ItemMap(items)[invCode[4..]].name
    ensures StockPrefix <= invCode && invCode[4..] in StockMap() ==>
      DisplayName(items, invCode) == StockMap()[invCode[4..]].name + " (" + invCode[4..] + ")"
  {
    if StockPrefix <= invCode {
      PrefixesDiffer(invCode);
    }
  }

  /** `STOCKS.find(s => s.symbol === symbol && s.enabled !== false)`: the first enabled stock. */
  function FindStock(stocks: seq<StockDef>, symbol: string): (d: Option<StockDef>)
    ensures d.Some? <==> exists i :: 0 <= i < |stocks| && stocks[i].symbol == symbol && stocks[i].enabled
    ensures d.Some? ==> d.value.symbol == symbol && d.value.enabled && d.value in stocks
  {
    if stocks == [] then None
    else if stocks[0].symbol == symbol && stocks[0].enabled then Some(stocks[0])
    else
      var d := FindStock(stocks[1..], symbol);
      assert forall i :: 1 <= i < |stocks| ==> stocks[i] == stocks[1..][i - 1];
      assert d.Some? ==> d.value in stocks by {
        if d.Some? { assert d.value in stocks[1..]; }
      }
      d
  }

  /** The first-match search of the trading code and `stockMap` agree on the five stocks. */
  lemma FindStockAgrees(symbol: string)
    ensures FindStock(Stocks, symbol) == StockDefOf(symbol)
  {
    StockMapIsStocks(symbol);
    StocksDistinct();
    if FindStock(Stocks, symbol).Some? {
      var d := FindStock(Stocks, symbol).value;
      var i :| 0 <= i < |Stocks| && Stocks[i] == d;
      assert StockMap()[symbol] == Stocks[i];
    }
  }
}
