/**
  Bet validation and settlement of src/economy/bets.js. The settle
  closures that `validateAndLockBet` returns capture the user and the
  truncated bet; here they are the datatype `Lock` plus `Settle`.
*/
module Bets {
  import opened JsNum
  import opened Db

  datatype BetError = NegativeBet | InsufficientFunds(bal: int)

  datatype Check = Rejected(error: BetError) | Accepted(bet: int)

  datatype Outcome = Win | Tie | Lose

  /** What the settle closures of an accepted bet remember. */
  datatype Lock = Lock(user: UserId, bet: int)

  /**
    The checks `validateAndLockBet` and `validateBet` share: the bet is
    `Number(bet) | 0`, must be non-negative, and at most the balance.
  */
  function CheckBet(bal: int, rawBet: int): (c: Check)
    ensures c.Accepted? <==> 0 <= ToInt32(rawBet) <= bal
    ensures c.Accepted? ==> c.bet == ToInt32(rawBet)
    ensures ToInt32(rawBet) < 0 ==> c == Rejected(NegativeBet)
    ensures 0 <= ToInt32(rawBet) && bal < ToInt32(rawBet) ==> c == Rejected(InsufficientFunds(bal))
  {
    var bet := ToInt32(rawBet);
    if bet < 0 then Rejected(NegativeBet)
    else if bet > bal then Rejected(InsufficientFunds(bal))
    else Accepted(bet)
  }

  /** The amount each settle closure adds to the balance. */
  function Credit(o: Outcome, bet: int): (c: int)
    ensures o == Lose ==> c == 0
    ensures bet >= 0 ==> 0 <= c <= 2 * bet
  {
    match o
    case Win => bet * 2
    case Tie => bet
    case Lose => 0
  }

  /** Net effect on the player of a bet that is locked and then settled. */
  function Net(o: Outcome, bet: int): int {
    match o
    case Win => bet
    case Tie => 0
    case Lose => -bet
  }

  /** The balance right after a successful lock (no write when the bet is 0). */
  function LockedBalance(bal: int, bet: int): int {
    if bet > 0 then NextBalance(bal, -bet) else bal
  }

  /**
    Locking then settling moves the balance by +bet, 0 or -bet, as long as
    no intermediate value reaches 2^31.
  */
  lemma SettleNet(bal: int, bet: int, o: Outcome)
    requires 0 <= bet <= bal && bal + bet < TWO_31
    ensures NextBalance(LockedBalance(bal, bet), Credit(o, bet)) == bal + Net(o, bet)
  {
    assert ToInt32(-bet) == -bet;
    assert LockedBalance(bal, bet) == bal - bet;
    assert 0 <= Credit(o, bet) < TWO_31;
    assert ToInt32(Credit(o, bet)) == Credit(o, bet);
  }

  /**
    A won bet of 2^30 chips (the whole balance) leaves the player with
    nothing: the credit `bet * 2` becomes negative under `| 0`.
  */
  lemma WinOfHugeBetZeroesBalance()
    ensures CheckBet(0x4000_0000, 0x4000_0000) == Accepted(0x4000_0000)
    ensures NextBalance(LockedBalance(0x4000_0000, 0x4000_0000), Credit(Win, 0x4000_0000)) == 0
  {
    assert LockedBalance(0x4000_0000, 0x4000_0000) == 0;
    assert ToInt32(0x8000_0000) == -0x8000_0000;
  }

  /** `validateAndLockBet`: check, then debit the bet when it is positive. */
  method ValidateAndLockBet(db: Ledger, u: UserId, rawBet: int) returns (c: Check)
    modifies db
    ensures c == CheckBet(old(db.Balance(u)), rawBet)
    ensures c.Accepted? && c.bet > 0 ==>
      db.balances == old(db.balances)[u := NextBalance(old(db.Balance(u)), -c.bet)]
    ensures !(c.Accepted? && c.bet > 0) ==> db.balances == old(db.balances)
    ensures db.inventory == old(db.inventory)
    ensures old(db.Valid()) ==> db.Valid()
  {
    c := CheckBet(db.Balance(u), rawBet);
    if c.Accepted? && c.bet > 0 {
      var _ := db.AddBalance(u, -c.bet);
    }
  }

  /** Calling `settle.win()`, `settle.tie()` or `settle.lose()` of a lock. */
  method Settle(db: Ledger, lock: Lock, o: Outcome) returns (newBal: int)
    modifies db
    ensures newBal == NextBalance(old(db.Balance(lock.user)), Credit(o, lock.bet))
    ensures db.balances == old(db.balances)[lock.user := newBal]
    ensures db.inventory == old(db.inventory)
    ensures old(db.Valid()) ==> db.Valid()
  {
    newBal := db.AddBalance(lock.user, Credit(o, lock.bet));
  }

  /** `validateBet`: the same checks, and the ledger is not touched. */
  method ValidateBet(db: Ledger, u: UserId, rawBet: int) returns (c: Check)
    ensures c == CheckBet(db.Balance(u), rawBet)
    ensures c.Accepted? <==> 0 <= ToInt32(rawBet) <= db.Balance(u)
  {
    c := CheckBet(db.Balance(u), rawBet);
  }
}
