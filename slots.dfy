/**
  The slot machine of src/commands/slots.js. Three reels of three
  symbols spin for 16 frames; reel k stops shifting from frame 13 + k, and
  on the last frame the middle row (the payline) is tiered and the locked
  bet settled. The random draws are inputs: `r` is `Math.random() * 110`
  for one `randSymbol` call, and `draws` lists the symbols the shifts
  draw, in the order the code asks for them. `failedFrame` is the frame
  whose message edit fails, if any; the animation loop stops there.
*/
module Slots {
  import opened Wrappers
  import opened JsNum
  import opened Db
  import opened Bets

  datatype Symbol = Cherry | Lemon | Bell | Star | Seven | Diamond

  const Symbols: seq<Symbol> := [Cherry, Lemon, Bell, Star, Seven, Diamond]
  const Weights: seq<nat> := [40, 35, 20, 10, 4, 1]
  const TotalWeight: nat := 110

  /** The weight of the first i symbols. */
  function Cum(i: nat): nat
    requires i <= 6
  {
    if i == 0 then 0 else Cum(i - 1) + Weights[i - 1]
  }

  /** `totalWeight`: the weights sum to 110, and symbol i owns a band of width `Weights[i]`. */
  lemma {:induction false} WeightsSum()
    ensures Cum(6) == TotalWeight
    ensures forall i :: 0 <= i < 6 ==> Cum(i + 1) - Cum(i) == Weights[i]
  {
    assert Cum(1) == 40 && Cum(2) == 75 && Cum(3) == 95;
    assert Cum(4) == 105 && Cum(5) == 109 && Cum(6) == 110;
  }

  /**
    `randSymbol`: subtract the weights from r in turn and take the symbol
    at which r reaches 0, so symbol i is drawn for r in (Cum(i), Cum(i+1)].
  */
  method RandSymbol(r: real) returns (s: Symbol)
    requires 0.0 <= r < TotalWeight as real
    ensures exists i :: (0 <= i < 6 && s == Symbols[i]
                         && (i == 0 || (Cum(i) as real) < r) && r <= Cum(i + 1) as real)
  {
    WeightsSum();
    var left := r;
    var i := 0;
    while i < 6
      invariant 0 <= i <= 6 && left == r - Cum(i) as real
      invariant i > 0 ==> (Cum(i) as real) < r
    {
      left := left - Weights[i] as real;
      if left <= 0.0 {
        return Symbols[i];
      }
      i := i + 1;
    }
    assert false;
    s := Cherry;
  }

  // ------------------------------------------------------------------ reels

  /** A column holds the top, middle and bottom symbols of one reel. */
  predicate IsColumn(col: seq<Symbol>) { |col| == 3 }

  predicate IsReels(cols: seq<seq<Symbol>>) {
    |cols| == 3 && forall k :: 0 <= k < 3 ==> IsColumn(cols[k])
  }

  /** `shiftColumn`: everything moves down one row and a fresh symbol enters at the top. */
  function ShiftColumn(col: seq<Symbol>, top: Symbol): (r: seq<Symbol>)
    requires IsColumn(col)
    ensures IsColumn(r) && r[0] == top && r[1] == col[0] && r[2] == col[1]
  {
    [top, col[0], col[1]]
  }

  /** `paylineTier`: 2 when the three middle symbols agree, 1 when two do, 0 otherwise. */
  function PaylineTier(cols: seq<seq<Symbol>>): (tier: nat)
    requires IsReels(cols)
  {
    var a, b, c := cols[0][1], cols[1][1], cols[2][1];
    if a == b && b == c then 2
    else if a == b || a == c || b == c then 1
    else 0
  }

  /** The tier counts repeats on the payline: 3 less the number of distinct middle symbols. */
  lemma TierCountsRepeats(cols: seq<seq<Symbol>>)
    requires IsReels(cols)
    ensures PaylineTier(cols) == 3 - |{cols[0][1], cols[1][1], cols[2][1]}|
  {
    var a, b, c := cols[0][1], cols[1][1], cols[2][1];
    if a == b && b == c {
      assert {a, b, c} == {a};
    } else if a == b {
      assert {a, b, c} == {a, c};
    } else if a == c {
      assert {a, b, c} == {a, b};
    } else if b == c {
      assert {a, b, c} == {a, b};
    } else {
      assert |{a, b}| == 2;
      assert {a, b, c} == {a, b} + {c};
    }
  }

  /** Only the middle row counts: reels that agree there get the same tier. */
  lemma TierReadsPaylineOnly(cols: seq<seq<Symbol>>, other: seq<seq<Symbol>>)
    requires IsReels(cols) && IsReels(other)
    requires forall k :: 0 <= k < 3 ==> cols[k][1] == other[k][1]
    ensures PaylineTier(cols) == PaylineTier(other)
  {
  }

  // -------------------------------------------------------------- animation

  const FrameCount: nat := 16

  /** Reel k still shifts in frame i: `!(i >= frames - 3 + k)`. */
  predicate Moves(k: nat, i: nat) {
    !(i >= FrameCount - 3 + k)
  }

  /** The reels and the number of draws taken so far. */
  datatype Spin = Spin(cols: seq<seq<Symbol>>, used: nat)

  /** How often reel k has shifted after n frames. */
  function Count(k: nat, n: nat): nat { if n <= 12 + k then n else 12 + k }

  /** How many draws n frames take. */
  function Used(n: nat): nat { Count(0, n) + Count(1, n) + Count(2, n) }

  /** How many of the reels before k shift in frame f; `Before(3, f)` is all that shift. */
  function Before(k: nat, f: nat): nat {
    (if k >= 1 && Moves(0, f) then 1 else 0) + (if k >= 2 && Moves(1, f) then 1 else 0)
      + (if k >= 3 && Moves(2, f) then 1 else 0)
  }

  lemma UsedStep(n: nat)
    requires 1 <= n
    ensures Used(n) == Used(n - 1) + Before(3, n)
  {
  }

  /** The index in `draws` of reel k's (j+1)-th shift. */
  function Pos(k: nat, j: nat): nat { Used(j) + Before(k, j + 1) }

  /** One conditional `cols[k] = shiftColumn(cols[k])` of frame i. */
  function MoveReel(s: Spin, draws: seq<Symbol>, k: nat, i: nat): (r: Spin)
    requires IsReels(s.cols) && k < 3 && (Moves(k, i) ==> s.used < |draws|)
    ensures IsReels(r.cols)
  {
    if Moves(k, i) then Spin(s.cols[k := ShiftColumn(s.cols[k], draws[s.used])], s.used + 1) else s
  }

  /** Frame i: reels 0, 1 and 2 in that order. */
  function Frame(s: Spin, draws: seq<Symbol>, i: nat): (r: Spin)
    requires IsReels(s.cols) && s.used + Before(3, i) <= |draws|
    ensures IsReels(r.cols) && r.used == s.used + Before(3, i)
  {
    MoveReel(MoveReel(MoveReel(s, draws, 0, i), draws, 1, i), draws, 2, i)
  }

  /** In frame i reel k takes the draw after those of the reels before it, if it moves at all. */
  lemma FrameReel(s: Spin, draws: seq<Symbol>, i: nat, k: nat)
    requires IsReels(s.cols) && s.used + Before(3, i) <= |draws| && k < 3
    ensures Frame(s, draws, i).cols[k]
      == if Moves(k, i) then ShiftColumn(s.cols[k], draws[s.used + Before(k, i)]) else s.cols[k]
  {
  }

  /** The reels after frames 1..n. */
  function Animate(init: seq<seq<Symbol>>, draws: seq<Symbol>, n: nat): (r: Spin)
    requires IsReels(init) && n <= 15 && |draws| >= 39
    ensures IsReels(r.cols) && r.used == Used(n)
  {
    if n == 0 then Spin(init, 0)
    else
      UsedStep(n);
      Frame(Animate(init, draws, n - 1), draws, n)
  }

  /** Shifting a column by each of ds in turn. */
  function ShiftAll(col: seq<Symbol>, ds: seq<Symbol>): (r: seq<Symbol>)
    requires IsColumn(col)
    ensures IsColumn(r)
  {
    if ds == [] then col else ShiftColumn(ShiftAll(col, ds[..|ds| - 1]), ds[|ds| - 1])
  }

  /** The draws reel k has taken after n frames, in order. */
  function ReelDraws(draws: seq<Symbol>, k: nat, n: nat): (ds: seq<Symbol>)
    requires k < 3 && n <= 15 && |draws| >= 39
    ensures |ds| == Count(k, n)
  {
    seq(Count(k, n), j requires 0 <= j < Count(k, n) => PosBound(k, j, n); draws[Pos(k, j)])
  }

  lemma PosBound(k: nat, j: nat, n: nat)
    requires k < 3 && n <= 15 && j < Count(k, n)
    ensures Pos(k, j) < Used(n) <= 39
  {
  }

  /** Frame n adds one draw to a reel that moves in it and none to the others. */
  lemma ReelDrawsStep(draws: seq<Symbol>, k: nat, n: nat)
    requires k < 3 && 1 <= n <= 15 && |draws| >= 39
    ensures Moves(k, n) ==> Count(k, n - 1) == n - 1
    ensures Moves(k, n) ==> ReelDraws(draws, k, n) == ReelDraws(draws, k, n - 1) + [draws[Pos(k, n - 1)]]
    ensures !Moves(k, n) ==> ReelDraws(draws, k, n) == ReelDraws(draws, k, n - 1)
  {
    var prev := ReelDraws(draws, k, n - 1);
    var next := ReelDraws(draws, k, n);
    if Moves(k, n) {
      assert next == prev + [draws[Pos(k, n - 1)]];
    } else {
      assert next == prev;
    }
  }

  /** Frame n carries the reels after n - 1 frames to those after n. */
  lemma FrameAdvances(init: seq<seq<Symbol>>, draws: seq<Symbol>, n: nat)
    requires IsReels(init) && 1 <= n <= 15 && |draws| >= 39
    ensures Animate(init, draws, n - 1).used + Before(3, n) <= |draws|
    ensures Frame(Animate(init, draws, n - 1), draws, n) == Animate(init, draws, n)
  {
    UsedStep(n);
  }

  /** One frame keeps the shape of `AnimateShape` for reel k. */
  lemma FrameShape(s: Spin, col: seq<Symbol>, draws: seq<Symbol>, n: nat, k: nat)
    requires IsColumn(col) && IsReels(s.cols) && 1 <= n <= 15 && |draws| >= 39 && k < 3
    requires s.used == Used(n - 1) && s.cols[k] == ShiftAll(col, ReelDraws(draws, k, n - 1))
    ensures s.used + Before(3, n) <= |draws|
    ensures Frame(s, draws, n).cols[k] == ShiftAll(col, ReelDraws(draws, k, n))
  {
    UsedStep(n);
    FrameReel(s, draws, n, k);
    ReelDrawsStep(draws, k, n);
    var next := ReelDraws(draws, k, n);
    if Moves(k, n) {
      assert next[..|next| - 1] == ReelDraws(draws, k, n - 1);
    }
  }

  /** After n frames reel k is its start shifted by exactly the draws at its positions. */
  lemma {:induction false} AnimateShape(init: seq<seq<Symbol>>, draws: seq<Symbol>, n: nat, k: nat)
    requires IsReels(init) && n <= 15 && |draws| >= 39 && k < 3
    ensures Animate(init, draws, n).cols[k] == ShiftAll(init[k], ReelDraws(draws, k, n))
  {
    if n > 0 {
      AnimateShape(init, draws, n - 1, k);
      FrameShape(Animate(init, draws, n - 1), init[k], draws, n, k);
    }
  }

  /** The middle of a column shifted at least twice is the second-to-last draw. */
  lemma MiddleIsSecondLast(col: seq<Symbol>, ds: seq<Symbol>)
    requires IsColumn(col) && |ds| >= 2
    ensures ShiftAll(col, ds)[1] == ds[|ds| - 2]
  {
    var front := ds[..|ds| - 1];
    assert front[..|front| - 1] == ds[..|ds| - 2];
    assert front[|front| - 1] == ds[|ds| - 2];
  }

  /**
    The reel-stop schedule: reel k shifts 12 + k times in all, so the
    last frame has taken 39 draws and the payline shows draws 30, 34 and
    37 (counting from 0) whatever the starting columns were.
  */
  lemma PaylineIsDraws(init: seq<seq<Symbol>>, draws: seq<Symbol>)
    requires IsReels(init) && |draws| >= 39
    ensures var s := Animate(init, draws, 15);
      && s.used == 39
      && s.cols[0][1] == draws[30] && s.cols[1][1] == draws[34] && s.cols[2][1] == draws[37]
  {
    AnimateShape(init, draws, 15, 0);
    AnimateShape(init, draws, 15, 1);
    AnimateShape(init, draws, 15, 2);
    MiddleIsSecondLast(init[0], ReelDraws(draws, 0, 15));
    MiddleIsSecondLast(init[1], ReelDraws(draws, 1, 15));
    MiddleIsSecondLast(init[2], ReelDraws(draws, 2, 15));
    assert Pos(0, 10) == 30 && Pos(1, 11) == 34 && Pos(2, 12) == 37;
  }

  /** Reel k is still from frame 13 + k on: the last frames leave it as it was. */
  lemma ReelsStopInOrder(init: seq<seq<Symbol>>, draws: seq<Symbol>, k: nat, n: nat)
    requires IsReels(init) && |draws| >= 39 && k < 3 && 12 + k <= n <= 15
    ensures Animate(init, draws, n).cols[k] == Animate(init, draws, 12 + k).cols[k]
    ensures Count(k, n) == 12 + k && (forall i :: 1 <= i < 13 + k ==> Moves(k, i))
  {
    AnimateShape(init, draws, n, k);
    AnimateShape(init, draws, 12 + k, k);
    assert ReelDraws(draws, k, n) == ReelDraws(draws, k, 12 + k);
  }

  // -------------------------------------------------------------- settlement

  /** The footer of the last frame. */
  datatype Footer = FreePlay(tier: nat) | Lost(bet: int, newBal: int) | Won(tier: nat, newBal: int)

  datatype Reply = Refused(error: BetError) | Spinning(first: seq<seq<Symbol>>)

  /** Whether the loop reaches the last frame: no edit of frames 1..14 failed. */
  predicate ReachesEnd(failedFrame: Option<int>) {
    !FailsBefore(failedFrame, 15)
  }

  /** The edit of one of frames 1..i-1 failed. */
  predicate FailsBefore(failedFrame: Option<int>, i: int) {
    failedFrame.Some? && 1 <= failedFrame.value < i
  }

  /**
    The last frame's settlement of a locked bet: none for a free play,
    `settle.lose()` on tier 0, `settle.win(2)` or `settle.win(5)` otherwise.
  */
  function Settled(balances: map<UserId, int>, u: UserId, bet: int, tier: nat): map<UserId, int> {
    if bet == 0 then balances
    else if tier == 0 then Credited(balances, u, Credit(Lose, bet))
    else Credited(balances, u, Credit(Win, bet))
  }

  /** The balances after `execute`, the animation included. */
  function SlotsBalances(balances: map<UserId, int>, u: UserId, rawBet: int, init: seq<seq<Symbol>>,
                         draws: seq<Symbol>, failedFrame: Option<int>): map<UserId, int>
    requires IsReels(init) && |draws| >= 39
  {
    var bet := ToInt32(rawBet);
    match CheckBet(BalanceIn(balances, u), bet)
    case Rejected(_) => balances
    case Accepted(_) =>
      var locked := if bet > 0 then Credited(balances, u, -bet) else balances;
      if ReachesEnd(failedFrame) then Settled(locked, u, bet, PaylineTier(Animate(init, draws, 15).cols))
      else locked
  }

  /** A free play (bet 0) never touches the ledger. */
  lemma FreePlayKeepsBalances(balances: map<UserId, int>, u: UserId, init: seq<seq<Symbol>>,
                              draws: seq<Symbol>, failedFrame: Option<int>)
    requires IsReels(init) && |draws| >= 39
    ensures SlotsBalances(balances, u, 0, init, draws, failedFrame) == balances
  {
  }

  /**
    Away from the 32-bit edge a spin moves the balance by +bet on a
    winning payline and by -bet on a losing one.
  */
  lemma SlotsNet(balances: map<UserId, int>, u: UserId, bet: int, init: seq<seq<Symbol>>, draws: seq<Symbol>)
    requires IsReels(init) && |draws| >= 39
    requires 0 < bet <= BalanceIn(balances, u) && BalanceIn(balances, u) + bet < TWO_31
    ensures var tier := PaylineTier(Animate(init, draws, 15).cols);
      SlotsBalances(balances, u, bet, init, draws, None)[u]
        == BalanceIn(balances, u) + (if tier == 0 then -bet else bet)
  {
    var bal := BalanceIn(balances, u);
    var tier := PaylineTier(Animate(init, draws, 15).cols);
    SettleNet(bal, bet, if tier == 0 then Lose else Win);
    assert LockedBalance(bal, bet) == NextBalance(bal, -bet);
  }

  /**
    As written, three of a kind pays what two of a kind pays: the settle
    closure `win` ignores the multiplier it is given, so `win(5)` credits
    2 x bet like `win(2)`.
  */
  lemma JackpotPaysLikePair(balances: map<UserId, int>, u: UserId, bet: int)
    requires bet != 0
    ensures Settled(balances, u, bet, 2) == Settled(balances, u, bet, 1) == Credited(balances, u, 2 * bet)
  {
  }

  /** A failed edit before the last frame ends the loop before settlement: the locked bet is gone. */
  lemma EarlyFailureKeepsStake(balances: map<UserId, int>, u: UserId, bet: int, init: seq<seq<Symbol>>,
                               draws: seq<Symbol>, f: int)
    requires IsReels(init) && |draws| >= 39 && 1 <= f < 15
    requires 0 < bet <= BalanceIn(balances, u) && BalanceIn(balances, u) < TWO_31
    ensures SlotsBalances(balances, u, bet, init, draws, Some(f))[u] == BalanceIn(balances, u) - bet
  {
    assert ToInt32(-bet) == -bet;
  }

  // --------------------------------------------------------------- execute

  /** The three conditional shifts of frame i in the loop of `execute`. */
  method ShiftReels(cols: seq<seq<Symbol>>, used: nat, draws: seq<Symbol>, i: nat)
      returns (cols': seq<seq<Symbol>>, used': nat)
    requires IsReels(cols) && used + Before(3, i) <= |draws|
    ensures Spin(cols', used') == Frame(Spin(cols, used), draws, i)
  {
    cols', used' := cols, used;
    if !(i >= FrameCount - 3) {
      cols' := cols'[0 := ShiftColumn(cols'[0], draws[used'])];
      used' := used' + 1;
    }
    if !(i >= FrameCount - 2) {
      cols' := cols'[1 := ShiftColumn(cols'[1], draws[used'])];
      used' := used' + 1;
    }
    if !(i >= FrameCount - 1) {
      cols' := cols'[2 := ShiftColumn(cols'[2], draws[used'])];
      used' := used' + 1;
    }
  }

  /** The last frame: tier the payline and settle the locked bet. */
  method SettleLastFrame(db: Ledger, u: UserId, bet: int, cols: seq<seq<Symbol>>) returns (footer: Footer)
    requires IsReels(cols)
    modifies db
    ensures db.balances == Settled(old(db.balances), u, bet, PaylineTier(cols))
    ensures bet == 0 <==> footer.FreePlay?
    ensures footer.FreePlay? || footer.Won? ==> footer.tier == PaylineTier(cols)
    ensures footer.Lost? <==> bet != 0 && PaylineTier(cols) == 0
    ensures !footer.FreePlay? ==> footer.newBal == db.Balance(u)
    ensures db.inventory == old(db.inventory)
    ensures old(db.Valid()) ==> db.Valid()
  {
    var tier := PaylineTier(cols);
    if bet == 0 {
      footer := FreePlay(tier);
    } else if tier == 0 {
      var newBal := Settle(db, Lock(u, bet), Lose);
      footer := Lost(bet, newBal);
    } else {
      var newBal := Settle(db, Lock(u, bet), Win);
      footer := Won(tier, newBal);
    }
  }

  /**
    The animation loop of `execute` for a locked bet: frames 1..15 shift
    the reels that still move, the last one settles, and a failed edit of
    a frame ends the loop.
  */
  method RunFrames(db: Ledger, u: UserId, bet: int, init: seq<seq<Symbol>>, draws: seq<Symbol>,
                   failedFrame: Option<int>) returns (footer: Option<Footer>)
    requires IsReels(init) && |draws| >= 39
    modifies db
    ensures footer.Some? <==> ReachesEnd(failedFrame)
    ensures footer.None? ==> db.balances == old(db.balances)
    ensures footer.Some? ==> db.balances == Settled(old(db.balances), u, bet, PaylineTier(Animate(init, draws, 15).cols))
    ensures footer.Some? ==> (footer.value.FreePlay? <==> bet == 0)
    ensures db.inventory == old(db.inventory)
    ensures old(db.Valid()) ==> db.Valid()
  {
    footer := None;
    var cols, used := init, 0;
    var i := 1;
    while i < FrameCount
      invariant 1 <= i <= FrameCount
      invariant Spin(cols, used) == Animate(init, draws, i - 1)
      invariant !FailsBefore(failedFrame, i)
      invariant footer.Some? <==> i == FrameCount
      invariant footer.None? ==> db.balances == old(db.balances)
      invariant footer.Some? ==> db.balances == Settled(old(db.balances), u, bet, PaylineTier(cols))
      invariant footer.Some? ==> (footer.value.FreePlay? <==> bet == 0)
      invariant db.inventory == old(db.inventory)
      invariant old(db.Valid()) ==> db.Valid()
    {
      FrameAdvances(init, draws, i);
      cols, used := ShiftReels(cols, used, draws, i);
      if i == FrameCount - 1 {
        var f := SettleLastFrame(db, u, bet, cols);
        footer := Some(f);
      }
      if failedFrame == Some(i) {
        break;
      }
      i := i + 1;
    }
  }

  /**
    `execute`: truncate and lock the bet, then run the animation. Only the
    first frame is the reply; the footer of the last frame is returned
    when it is reached.
  */
  method Execute(db: Ledger, u: UserId, rawBet: int, init: seq<seq<Symbol>>, draws: seq<Symbol>,
                 failedFrame: Option<int>) returns (reply: Reply, footer: Option<Footer>)
    requires IsReels(init) && |draws| >= 39
    modifies db
    ensures db.balances == SlotsBalances(old(db.balances), u, rawBet, init, draws, failedFrame)
    ensures reply.Refused? <==> CheckBet(old(db.Balance(u)), ToInt32(rawBet)).Rejected?
    ensures footer.Some? <==> reply.Spinning? && ReachesEnd(failedFrame)
    ensures footer.Some? ==> (footer.value.FreePlay? <==> ToInt32(rawBet) == 0)
    ensures db.inventory == old(db.inventory)
    ensures old(db.Valid()) ==> db.Valid()
  {
    var bet := ToInt32(rawBet);
    var check := ValidateAndLockBet(db, u, bet);
    if check.Rejected? {
      return Refused(check.error), None;
    }
    reply := Spinning(init);
    footer := RunFrames(db, u, bet, init, draws, failedFrame);
  }
}
