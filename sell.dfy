/**
  `/sell code qty` from src/commands/sell.js: sell items back for their
  `sell` price. The item list is a parameter (src/registry/items.js is not
  part of this model). The slash-command options arrive as `Option`s:
  `None` is an option the user left out.
*/
module Sell {
  import opened Wrappers
  import opened JsNum
  import opened Db
  import opened Registry

  datatype Rejection =
    | Usage               // no code, or a quantity that is not positive
    | NotSellable         // unknown item, or no positive sell price
    | OnlyHave(have: int) // fewer held than asked for

  datatype Sold = Sold(qty: int, name: string, proceeds: int, newBal: int)

  /** `Number(qty ?? 1) | 0`. */
  function Quantity(rawQty: Option<int>): (q: int)
    ensures rawQty.None? ==> q == 1
    ensures rawQty.Some? ==> q == ToInt32(rawQty.value)
  {
    ToInt32(rawQty.GetOr(1))
  }

  /** `!code`: the option is missing or the empty string. */
  predicate NoCode(code: Option<string>) {
    code.None? || code.value == ""
  }

  /** `typeof def.sell === "number" && def.sell > 0`. */
  predicate Sellable(d: Option<ItemDef>) {
    d.Some? && d.value.sell.Some? && d.value.sell.value > 0
  }

  /**
    The three checks of `execute`, in order; `have` is what the user holds
    of the item. `Ok` carries the item definition.
  */
  function Check(items: seq<ItemDef>, code: Option<string>, rawQty: Option<int>, have: int): (r: Result<ItemDef, Rejection>)
    ensures r == Err(Usage) <==> NoCode(code) || Quantity(rawQty) <= 0
    ensures r == Err(NotSellable) <==>
      !NoCode(code) && Quantity(rawQty) > 0 && !Sellable(ItemDefOf(items, code.value))
    ensures (r.Ok? || (r.Err? && r.error.OnlyHave?)) <==>
      !NoCode(code) && Quantity(rawQty) > 0 && Sellable(ItemDefOf(items, code.value))
    ensures r.Ok? ==> Some(r.value) == ItemDefOf(items, code.value) && Quantity(rawQty) <= have
    ensures r.Err? && r.error.OnlyHave? ==> r.error.have == have < Quantity(rawQty)
  {
    var qty := Quantity(rawQty);
    if NoCode(code) || qty <= 0 then Err(Usage)
    else
      var def := ItemDefOf(items, code.value);
      if !Sellable(def) then Err(NotSellable)
      else if have < qty then Err(OnlyHave(have))
      else Ok(def.value)
  }

  /** The inventory code the command reads and writes (the empty code when none was given). */
  function InvCodeOf(code: Option<string>): InvCode {
    ToItemCode(code.GetOr(""))
  }

  /** A sale sells an enabled item of the list, at a positive price, never more than is held. */
  lemma SaleIsOfListedItem(items: seq<ItemDef>, code: Option<string>, rawQty: Option<int>, have: int)
    requires Check(items, code, rawQty, have).Ok?
    ensures var d := Check(items, code, rawQty, have).value;
      && d in items && d.enabled && d.code == code.value && d.sell.value > 0
      && 0 < Quantity(rawQty) <= have
  {
  }

  /**
    Taking `qty` units out of a holding of at least `qty` leaves exactly
    the difference: the zero clamp of `addItem` never applies.
  */
  lemma RemovesExactly(have: int, qty: int)
    requires 0 < qty <= have && qty < TWO_31
    ensures NextQty(have, -qty) == have - qty
  {
    assert ToInt32(-qty) == -qty;
  }

  /**
    The proceeds are credited through `addBalance`, so they pass through
    `| 0`: a sale worth 2^31 or more is credited as a negative amount and
    can leave the seller poorer than before.
  */
  lemma HugeSaleIsDebited(bal: int, proceeds: int)
    requires 0 <= bal < TWO_31 && TWO_31 <= proceeds < TWO_32
    ensures NextBalance(bal, proceeds) < bal || bal == 0
  {
    assert ToInt32(proceeds) == proceeds - TWO_32;
  }

  /**
    `execute`: on any rejection nothing is written; otherwise `qty` units
    leave the inventory row and `sell * qty` is credited, and the reply
    carries the new balance.
  */
  method Execute(db: Ledger, items: seq<ItemDef>, u: UserId, code: Option<string>, rawQty: Option<int>)
    returns (r: Result<Sold, Rejection>)
    modifies db
    ensures var c := Check(items, code, rawQty, old(db.Holding(u, InvCodeOf(code))));
      && (c.Err? ==> r == Err(c.error))
      && (c.Ok? ==> r.Ok? && r.value.qty == Quantity(rawQty) && r.value.name == c.value.name
                    && r.value.proceeds == Cost(c.value.sell.value, Quantity(rawQty)))
    ensures r.Err? ==> db.balances == old(db.balances) && db.inventory == old(db.inventory)
    ensures r.Ok? ==>
      && db.inventory == old(db.inventory)[(u, InvCodeOf(code)) := old(db.Holding(u, InvCodeOf(code))) - r.value.qty]
      && db.balances == Credited(old(db.balances), u, r.value.proceeds)
      && r.value.newBal == db.balances[u]
    ensures old(db.Valid()) ==> db.Valid()
  {
    var qty := Quantity(rawQty);
    if NoCode(code) || qty <= 0 {
      return Err(Usage);
    }
    var def := ItemDefOf(items, code.value);
    if !Sellable(def) {
      return Err(NotSellable);
    }
    var invCode := ToItemCode(code.value);
    var have := db.Holding(u, invCode);
    if have < qty {
      return Err(OnlyHave(have));
    }
    var price := def.value.sell.value;
    var proceeds := Cost(price, qty);
    RemovesExactly(have, qty);
    var _ := db.AddItem(u, invCode, -qty);
    var newBal := db.AddBalance(u, proceeds);
    r := Ok(Sold(qty, def.value.name, proceeds, newBal));
  }
}
