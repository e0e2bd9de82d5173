/**
  The chip ledger and item inventory of src/economy/db.js. The two SQLite
  tables become two maps that the methods reassign: `balances` keyed by
  user, `inventory` keyed by (user, item code). Every write is an upsert
  of one key.
*/
module Db {
  import opened Wrappers
  import opened JsNum

  type UserId = string
  type InvCode = string

  /** The value `setBalance` stores for `amount`: `Math.max(0, amount | 0)`. */
  function StoredBalance(amount: int): (r: int)
    ensures 0 <= r < TWO_31
    ensures 0 <= amount < TWO_31 ==> r == amount
    ensures -TWO_31 <= amount < 0 ==> r == 0
  {
    Max(0, ToInt32(amount))
  }

  /**
    The balance `addBalance` leaves: `max(0, bal + (delta | 0))`, then
    stored through `setBalance`, which applies `| 0` once more.
  */
  function NextBalance(bal: int, delta: int): (r: int)
    ensures 0 <= r < TWO_31
    ensures 0 <= bal + ToInt32(delta) < TWO_31 ==> r == bal + ToInt32(delta)
    ensures bal + ToInt32(delta) <= 0 ==> r == 0
  {
    StoredBalance(Max(0, bal + ToInt32(delta)))
  }

  /** The quantity `addItem` stores: `Math.max(0, cur + (delta | 0))`. */
  function NextQty(cur: int, delta: int): (r: int)
    ensures r >= 0
    ensures cur + ToInt32(delta) >= 0 ==> r == cur + ToInt32(delta)
    ensures cur + ToInt32(delta) < 0 ==> r == 0
  {
    Max(0, cur + ToInt32(delta))
  }

  /**
    A credit that carries a balance to 2^31 or beyond does not saturate:
    the second `| 0` in `setBalance` turns the sum negative and the clamp
    stores 0.
  */
  lemma AddBalanceOverflowResets(bal: int, delta: int)
    requires 0 <= delta < TWO_31 && TWO_31 <= bal + delta < TWO_32
    ensures NextBalance(bal, delta) == 0
  {
    assert ToInt32(delta) == delta;
    assert ToInt32(bal + delta) == bal + delta - TWO_32;
  }

  /** The balance a map of rows gives a user: the stored value, or 0 without a row. */
  function BalanceIn(balances: map<UserId, int>, u: UserId): int {
    if u in balances then balances[u] else 0
  }

  /** The rows after `addBalance(u, delta)`: only u's row is written. */
  function Credited(balances: map<UserId, int>, u: UserId, delta: int): (b: map<UserId, int>)
    ensures b.Keys == balances.Keys + {u}
    ensures b[u] == NextBalance(BalanceIn(balances, u), delta)
    ensures forall v :: v in balances && v != u ==> b[v] == balances[v]
  {
    balances[u := NextBalance(BalanceIn(balances, u), delta)]
  }

  /** What `qty` units cost, or bring in, at `price` each (no `| 0`: the credit applies it). */
  function Cost(price: int, qty: int): int { price * qty }

  class Ledger {
    var balances: map<UserId, int>
    var inventory: map<(UserId, InvCode), int>

    /** No stored balance or quantity is negative. */
    ghost predicate Valid()
      reads this
    {
      && (forall u :: u in balances ==> balances[u] >= 0)
      && (forall k :: k in inventory ==> inventory[k] >= 0)
    }

    constructor ()
      ensures balances == map[] && inventory == map[]
      ensures Valid()
    {
      balances := map[];
      inventory := map[];
    }

    /** `getBalance`: the stored balance, or 0 for a user without a row. */
    function Balance(u: UserId): (r: int)
      reads this
      ensures u !in balances ==> r == 0
      ensures Valid() ==> r >= 0
    {
      BalanceIn(balances, u)
    }

    /** `getInventory(u)` as a map from item code to quantity. */
    function Inventory(u: UserId): (inv: map<InvCode, int>)
      reads this
      ensures forall c :: c in inv <==> (u, c) in inventory
      ensures forall c :: c in inv ==> inv[c] == inventory[(u, c)]
    {
      map k | k in inventory && k.0 == u :: k.1 := inventory[k]
    }

    /** `getInventory(u).find(x => x.item_code === code)?.qty || 0`. */
    function Holding(u: UserId, code: InvCode): (q: int)
      reads this
      ensures (u, code) !in inventory ==> q == 0
      ensures Valid() ==> q >= 0
    {
      var inv := Inventory(u);
      if code in inv then inv[code] else 0
    }

    method SetBalance(u: UserId, amount: int) returns (r: int)
      modifies this
      ensures r == StoredBalance(amount)
      ensures balances == old(balances)[u := r]
      ensures inventory == old(inventory)
      ensures old(Valid()) ==> Valid()
    {
      r := StoredBalance(amount);
      balances := balances[u := r];
    }

    method AddBalance(u: UserId, delta: int) returns (r: int)
      modifies this
      ensures r == NextBalance(old(Balance(u)), delta)
      ensures balances == Credited(old(balances), u, delta)
      ensures inventory == old(inventory)
      ensures old(Valid()) ==> Valid()
    {
      var next := Max(0, Balance(u) + ToInt32(delta));
      r := SetBalance(u, next);
    }

    /** Gives a new user `starter` chips; an existing row is left alone. */
    method EnsureStarter(u: UserId, starter: int := 1000) returns (r: int)
      modifies this
      ensures u in old(balances) ==> r == old(balances[u]) && balances == old(balances)
      ensures u !in old(balances) ==> r == ToInt32(starter) && balances == old(balances)[u := r]
      ensures inventory == old(inventory)
      ensures old(Valid()) && ToInt32(starter) >= 0 ==> Valid()
    {
      if u in balances {
        r := balances[u];
      } else {
        r := ToInt32(starter);
        balances := balances[u := r];
      }
    }

    method AddItem(u: UserId, code: InvCode, delta: int := 1) returns (r: int)
      modifies this
      ensures r == NextQty(old(Holding(u, code)), delta)
      ensures inventory == old(inventory)[(u, code) := r]
      ensures balances == old(balances)
      ensures old(Valid()) ==> Valid()
    {
      var cur := if (u, code) in inventory then inventory[(u, code)] else 0;
      r := NextQty(cur, delta);
      inventory := inventory[(u, code) := r];
    }

    method SetItem(u: UserId, code: InvCode, qty: int) returns (r: int)
      modifies this
      ensures r == Max(0, ToInt32(qty))
      ensures inventory == old(inventory)[(u, code) := r]
      ensures balances == old(balances)
      ensures old(Valid()) ==> Valid()
    {
      r := Max(0, ToInt32(qty));
      inventory := inventory[(u, code) := r];
    }
  }
}
