/**
  The game flow of the poker table (src/commands/poker.js) as functions on a
  snapshot of the table: `startHand`, `advanceTurn`, `completeBettingRound`,
  `showdown`, `endHand`, `endGameAndSettle` and `handlePlayerAction`. Each
  returns the table and the chip ledger it leaves, and where the chain of
  `await`s stops (a prompt, a scheduled next hand, the end of the game, or a
  TypeError). The methods of the session class are proved against these.
*/
module PokerFlow {
  import opened Wrappers
  import opened JsNum
  import opened Shuffle
  import opened Db
  import opened PokerCards
  import opened PokerRules
  import opened PokerHand

  /** Where a chain of game steps stops. */
  datatype Progress =
    | Prompted(userId: UserId)   // promptPlayerAction: buttons sent, the 30 s auto-fold timer set
    | NextHandScheduled          // endHand: `startHand` again in 5 s if the table is still active
    | GameOver                   // endGameAndSettle: everyone settled, the table closed
    | BackToWaiting              // startHand: fewer than two players left, the table waits
    | Crashed                    // a TypeError ended the chain where it was

  /** The fields of the session object the game flow reads and writes. */
  datatype Table = Table(status: Status, players: seq<Player>, waitList: seq<UserId>,
                         leaveList: seq<UserId>, dealerPos: int, handNum: int,
                         hand: Option<HandState>)

  /** A table, the ledger's balances, and where the flow stopped. */
  datatype Step = Step(table: Table, balances: map<UserId, int>, progress: Progress)

  /** A hand whose turn index points into its action order. */
  predicate InTurn(t: Table) {
    t.hand.Some? && 0 <= t.hand.value.currentPlayerIndex < |t.hand.value.actionOrder|
  }

  // ------------------------------------------------------------- players

  /** `players.filter(keep)`: the players kept, in their order. */
  function Filter(players: seq<Player>, keep: Player -> bool): (r: seq<Player>)
    ensures |r| <= |players|
    ensures forall p :: p in r <==> p in players && keep(p)
  {
    if players == [] then []
    else
      var rest := Filter(players[1..], keep);
      assert forall q :: q in players <==> q == players[0] || q in players[1..];
      if keep(players[0]) then [players[0]] + rest else rest
  }

  /** Filtering keeps seats apart: no id appears twice afterwards if it did not before. */
  lemma {:induction false} FilterKeepsDistinct(players: seq<Player>, keep: Player -> bool)
    requires Distinct(Ids(players))
    ensures Distinct(Ids(Filter(players, keep)))
  {
    if players != [] {
      var rest := Filter(players[1..], keep);
      assert Ids(players[1..]) == Ids(players)[1..];
      FilterKeepsDistinct(players[1..], keep);
      if keep(players[0]) {
        var r := [players[0]] + rest;
        forall i | 0 < i < |r| ensures r[i].userId != players[0].userId {
          assert r[i] in rest;
          var k :| 0 <= k < |players[1..]| && players[1..][k] == r[i];
          assert Ids(players)[k + 1] == r[i].userId;
        }
        assert Ids(r) == [players[0].userId] + Ids(rest);
      }
    }
  }

  /** `players.filter(p => p.stack > 0)`. */
  function WithChips(players: seq<Player>): (r: seq<Player>)
    ensures forall q :: q in r <==> q in players && q.stack > 0
    ensures Kept(players, r)
  {
    var keep := (p: Player) => p.stack > 0;
    FilterKept(players, keep);
    Filter(players, keep)
  }

  /** `players.filter(p => !leaveList.includes(p.userId))`. */
  function Staying(players: seq<Player>, leaveList: seq<UserId>): (r: seq<Player>)
    ensures forall q :: q in r <==> q in players && q.userId !in leaveList
    ensures Kept(players, r)
  {
    var keep := (p: Player) => p.userId !in leaveList;
    FilterKept(players, keep);
    Filter(players, keep)
  }

  /** `player.stack += x` on the first seat of `uid` (no seat: nothing). */
  function AddToStack(players: seq<Player>, uid: UserId, x: int): (r: seq<Player>)
    ensures |r| == |players| && Ids(r) == Ids(players)
  {
    var i := IndexOfId(players, uid);
    if i < 0 then players else players[i := players[i].(stack := players[i].stack + x)]
  }

  /** `players[i].stack -= x`. */
  function TakeAt(players: seq<Player>, i: int, x: int): (r: seq<Player>)
    requires 0 <= i < |players|
    ensures |r| == |players| && Ids(r) == Ids(players)
  {
    players[i := players[i].(stack := players[i].stack - x)]
  }

  /** `player.stack -= x` on the first seat of `uid` (no seat: nothing). */
  function TakeFromStack(players: seq<Player>, uid: UserId, x: int): (r: seq<Player>)
    ensures |r| == |players| && Ids(r) == Ids(players)
  {
    var i := IndexOfId(players, uid);
    if i < 0 then players else TakeAt(players, i, x)
  }

  /** Taking x from one seat takes x from the table's total. */
  lemma {:induction false} TakeAtSum(players: seq<Player>, i: int, x: int)
    requires 0 <= i < |players|
    ensures StackSum(TakeAt(players, i, x)) == StackSum(players) - x
  {
    StackSumUpdate(players, i, players[i].stack - x);
  }

  /** In a table of distinct ids, two seats with the same id are the same seat. */
  lemma SameIdSameSeat(players: seq<Player>, p: Player, q: Player)
    requires Distinct(Ids(players)) && p in players && q in players && p.userId == q.userId
    ensures p == q
  {
    var i :| 0 <= i < |players| && players[i] == p;
    var j :| 0 <= j < |players| && players[j] == q;
    assert Ids(players)[i] == Ids(players)[j];
  }

  /** Changing one seat's stack by x changes the table's total by x. */
  lemma {:induction false} StackSumUpdate(players: seq<Player>, i: int, s: int)
    requires 0 <= i < |players|
    ensures StackSum(players[i := players[i].(stack := s)]) == StackSum(players) - players[i].stack + s
    decreases |players|
  {
    var n := |players|;
    var q := players[i := players[i].(stack := s)];
    assert q[..n - 1] == if i == n - 1 then players[..n - 1] else players[..n - 1][i := players[i].(stack := s)];
    if i < n - 1 {
      StackSumUpdate(players[..n - 1], i, s);
    }
  }

  /** `find` only looks at the ids: two tables with the same ids find the same seat. */
  lemma {:induction false} IndexOfSameIds(a: seq<Player>, b: seq<Player>, uid: UserId)
    requires Ids(a) == Ids(b)
    ensures IndexOfId(a, uid) == IndexOfId(b, uid)
  {
    if a != [] {
      assert Ids(a[1..]) == Ids(a)[1..] && Ids(b[1..]) == Ids(b)[1..];
      assert a[0].userId == Ids(a)[0] == Ids(b)[0] == b[0].userId;
      IndexOfSameIds(a[1..], b[1..], uid);
    }
  }

  /** Adding x to a seated player's stack adds x to their stack and to the table's total. */
  lemma {:induction false} AddToStackSum(players: seq<Player>, uid: UserId, x: int)
    requires uid in Ids(players)
    ensures StackSum(AddToStack(players, uid, x)) == StackSum(players) + x
    ensures FindPlayer(AddToStack(players, uid, x), uid).value.stack == FindPlayer(players, uid).value.stack + x
  {
    var i := IndexOfId(players, uid);
    var r := players[i := players[i].(stack := players[i].stack + x)];
    assert AddToStack(players, uid, x) == r;
    StackSumUpdate(players, i, players[i].stack + x);
    IndexOfSameIds(r, players, uid);
    assert FindPlayer(r, uid) == Some(r[i]);
  }

  /** Taking x from a seated player's stack takes x from their stack and from the table's total. */
  lemma {:induction false} TakeFromStackSum(players: seq<Player>, uid: UserId, x: int)
    requires uid in Ids(players)
    ensures StackSum(TakeFromStack(players, uid, x)) == StackSum(players) - x
    ensures FindPlayer(TakeFromStack(players, uid, x), uid).value.stack == FindPlayer(players, uid).value.stack - x
  {
    var i := IndexOfId(players, uid);
    var r := TakeAt(players, i, x);
    TakeAtSum(players, i, x);
    IndexOfSameIds(r, players, uid);
    assert FindPlayer(r, uid) == Some(r[i]);
  }

  // ------------------------------------------------------------- payouts

  /** The ledger after the `addBalance(userId, stack - buyIn)` loop of `endGameAndSettle`. */
  function SettleAll(balances: map<UserId, int>, players: seq<Player>): map<UserId, int> {
    if players == [] then balances
    else
      var p := players[|players| - 1];
      Credited(SettleAll(balances, players[..|players| - 1]), p.userId, p.stack - p.buyIn)
  }

  /** Settling credits a seated player with their result, stack - buyIn (through `addBalance`'s clamp). */
  lemma {:induction false} SettleAllCredits(balances: map<UserId, int>, players: seq<Player>, i: int)
    requires Distinct(Ids(players)) && 0 <= i < |players|
    ensures BalanceIn(SettleAll(balances, players), players[i].userId) ==
      NextBalance(BalanceIn(balances, players[i].userId), players[i].stack - players[i].buyIn)
  {
    var n := |players|;
    var init := players[..n - 1];
    assert Ids(init) == Ids(players)[..n - 1];
    if i < n - 1 {
      assert Ids(players)[i] != Ids(players)[n - 1];
      SettleAllCredits(balances, init, i);
    } else {
      SettleAllSkips(balances, init, players[i].userId);
    }
  }

  /** Settling leaves the balance of anybody without a seat alone. */
  lemma {:induction false} SettleAllSkips(balances: map<UserId, int>, players: seq<Player>, u: UserId)
    requires u !in Ids(players)
    ensures BalanceIn(SettleAll(balances, players), u) == BalanceIn(balances, u)
  {
    if players != [] {
      var n := |players|;
      var init := players[..n - 1];
      assert Ids(init) == Ids(players)[..n - 1];
      assert Ids(players)[n - 1] != u;
      SettleAllSkips(balances, init, u);
    }
  }

  /** What the payout loop of `startHand` credits leaver u: `stack - buyIn`, when u is seated with chips. */
  function Refund(players: seq<Player>, u: UserId): Option<int> {
    match FindPlayer(players, u)
    case Some(p) => if p.stack > 0 then Some(p.stack - p.buyIn) else None
    case None => None
  }

  /** The ledger after the payout loop of `startHand`. */
  function PayLeavers(balances: map<UserId, int>, players: seq<Player>, leaveList: seq<UserId>): map<UserId, int> {
    if leaveList == [] then balances
    else
      var prev := PayLeavers(balances, players, leaveList[..|leaveList| - 1]);
      var u := leaveList[|leaveList| - 1];
      var refund := Refund(players, u);
      if refund.Some? then Credited(prev, u, refund.value) else prev
  }

  /**
    Each leaver found at the table with chips is paid their result; a leaver
    with an empty stack (or no seat) and everybody else keep their balance.
  */
  lemma {:induction false} PayLeaversPays(balances: map<UserId, int>, players: seq<Player>, leaveList: seq<UserId>, u: UserId)
    requires Distinct(leaveList)
    ensures var found := FindPlayer(players, u);
      BalanceIn(PayLeavers(balances, players, leaveList), u) ==
        if u in leaveList && found.Some? && found.value.stack > 0
        then NextBalance(BalanceIn(balances, u), found.value.stack - found.value.buyIn)
        else BalanceIn(balances, u)
  {
    PaidBalance(balances, players, leaveList, u);
  }

  /** `PayLeaversPays` in terms of `Refund`. */
  lemma {:induction false} PaidBalance(balances: map<UserId, int>, players: seq<Player>, leaveList: seq<UserId>, u: UserId)
    requires Distinct(leaveList)
    ensures BalanceIn(PayLeavers(balances, players, leaveList), u) ==
      if u in leaveList && Refund(players, u).Some? then NextBalance(BalanceIn(balances, u), Refund(players, u).value)
      else BalanceIn(balances, u)
  {
    if leaveList != [] {
      var n := |leaveList|;
      var init := leaveList[..n - 1];
      var last := leaveList[n - 1];
      DistinctInit(leaveList);
      assert u in leaveList <==> u in init || u == last;
      PaidBalance(balances, players, init, u);
      var prev := PayLeavers(balances, players, init);
      var refund := Refund(players, last);
      if refund.Some? {
        CreditedBalance(prev, last, refund.value, u);
      }
    }
  }

  /** The balance of u after crediting v. */
  lemma CreditedBalance(m: map<UserId, int>, v: UserId, delta: int, u: UserId)
    ensures BalanceIn(Credited(m, v, delta), u) == if u == v then NextBalance(BalanceIn(m, u), delta) else BalanceIn(m, u)
  {
  }

  // -------------------------------------------------------------- seating

  /** The seating loop of `startHand` over the waiting list (balances are read, not written). */
  function SeatAll(players: seq<Player>, waitList: seq<UserId>, balances: map<UserId, int>): (r: seq<Player>)
    ensures |players| <= |r| <= |players| + |waitList| && r[..|players|] == players
    ensures forall i :: |players| <= i < |r| ==>
      && r[i].userId in waitList
      && r[i].stack == r[i].buyIn == BalanceIn(balances, r[i].userId) >= MIN_BALANCE_REQUIRED
      && r[i].seat == i && r[i].username == "Player" + NatToString(i)
  {
    if waitList == [] then players
    else
      var prev := SeatAll(players, waitList[..|waitList| - 1], balances);
      var u := waitList[|waitList| - 1];
      var bal := BalanceIn(balances, u);
      if bal < MIN_BALANCE_REQUIRED then prev
      else prev + [Player(u, "Player" + NatToString(|prev|), bal, |prev|, bal)]
  }

  /** Every waiting user whose balance covers the minimum is seated. */
  lemma {:induction false} SeatAllSeatsFunded(players: seq<Player>, waitList: seq<UserId>, balances: map<UserId, int>, u: UserId)
    requires u in waitList && BalanceIn(balances, u) >= MIN_BALANCE_REQUIRED
    ensures u in Ids(SeatAll(players, waitList, balances))
  {
    var n := |waitList|;
    var prev := SeatAll(players, waitList[..n - 1], balances);
    if waitList[n - 1] == u {
      var r := SeatAll(players, waitList, balances);
      assert r[|r| - 1].userId == u;
    } else {
      assert u in waitList[..n - 1];
      SeatAllSeatsFunded(players, waitList[..n - 1], balances, u);
      var r := SeatAll(players, waitList, balances);
      var k :| 0 <= k < |prev| && prev[k].userId == u;
      assert r[k] == prev[k];
    }
  }

  // ------------------------------------------------------- ending a hand

  /** `endGameAndSettle`: the table is closed and every seated player settles stack - buyIn. */
  function EndGame(t: Table, balances: map<UserId, int>): (s: Step) {
    Step(t.(status := Ended), SettleAll(balances, t.players), GameOver)
  }

  /**
    `endHand`: players without chips leave the table (unsettled); with
    fewer than two left the game ends, otherwise the next hand is scheduled.
  */
  function EndHand(t: Table, balances: map<UserId, int>): (s: Step)
    ensures forall q :: q in s.table.players <==> q in t.players && q.stack > 0
    ensures s.progress == GameOver <==> |s.table.players| < MIN_PLAYERS
    ensures s.progress == GameOver || s.progress == NextHandScheduled
    ensures s.progress == NextHandScheduled ==> s.balances == balances
    ensures s.table.hand == t.hand
    ensures Kept(t.players, s.table.players)
    ensures s.table.waitList == t.waitList && s.table.dealerPos == t.dealerPos
  {
    var keep := WithChips(t.players);
    if |keep| < MIN_PLAYERS then EndGame(t.(players := keep), balances)
    else Step(t.(players := keep), balances, NextHandScheduled)
  }

  /** The players `showdown` and `completeBettingRound` still count: those who have not folded. */
  function Unfolded(t: Table): seq<Player>
    requires t.hand.Some?
  {
    Filter(t.players, (p: Player) => p.userId !in t.hand.value.folded)
  }

  /** The score of each unfolded player, in seat order (`None`: evaluating it crashes). */
  function Scores(t: Table): (r: seq<Option<Option<int>>>)
    requires t.hand.Some?
    ensures |r| == |Unfolded(t)|
  {
    var active := Unfolded(t);
    var h := t.hand.value;
    seq(|active|, i requires 0 <= i < |active| => PlayerScore(h.holeCards, h.board, active[i].userId))
  }

  /**
    The seat (among the unfolded players) the `showdown` loop settles on:
    the first with the highest score above -1. -1 when a score crashes the
    loop or nobody beats -1 (then `winner.username` crashes).
  */
  function WinnerIndex(t: Table): (k: int)
    requires t.hand.Some?
    ensures -1 <= k < |Unfolded(t)|
    ensures k == -1 <==>
      (exists i :: 0 <= i < |Scores(t)| && Scores(t)[i].None?) ||
      (forall i :: 0 <= i < |Scores(t)| ==> Scores(t)[i] == Some(None) || Scores(t)[i].value.value <= -1)
    ensures k >= 0 ==> Scores(t)[k].Some? && Scores(t)[k].value.Some?
    ensures k >= 0 ==> forall j :: 0 <= j < |Scores(t)| && Scores(t)[j].Some? && Scores(t)[j].value.Some? ==>
      Scores(t)[j].value.value <= Scores(t)[k].value.value
    ensures k >= 0 ==> forall j :: 0 <= j < k && Scores(t)[j].Some? && Scores(t)[j].value.Some? ==>
      Scores(t)[j].value.value < Scores(t)[k].value.value
  {
    var scores := Scores(t);
    if exists i :: 0 <= i < |scores| && scores[i].None? then -1
    else
      var plain := Values(scores, |scores|);
      var leader := Leader(plain);
      assert forall i :: 0 <= i < |scores| ==> scores[i] == Some(plain[i]);
      leader.1
  }

  /** The first n scores, once none of them crashed. */
  function Values(scores: seq<Option<Option<int>>>, n: nat): (r: seq<Option<int>>)
    requires n <= |scores| && forall i :: 0 <= i < n ==> scores[i].Some?
    ensures |r| == n && forall i :: 0 <= i < n ==> scores[i] == Some(r[i])
  {
    seq(n, i requires 0 <= i < n => scores[i].value)
  }

  /** One more score in the `showdown` loop: a strictly higher score takes the lead. */
  lemma LeaderStep(scores: seq<Option<Option<int>>>, i: nat)
    requires i < |scores| && forall j :: 0 <= j <= i ==> scores[j].Some?
    ensures var prev := Leader(Values(scores, i));
      var s := scores[i].value;
      Leader(Values(scores, i + 1)) == if s.Some? && s.value > prev.0 then (s.value, i) else prev
  {
    assert Values(scores, i + 1)[..i] == Values(scores, i);
  }

  /** The loop's outcome: a crashing score gives -1, otherwise the leader of all the scores. */
  lemma WinnerIndexLoop(t: Table)
    requires t.hand.Some?
    ensures var scores := Scores(t);
      WinnerIndex(t) ==
        if exists i :: 0 <= i < |scores| && scores[i].None? then -1
        else Leader(Values(scores, |scores|)).1
  {
  }

  /** The winning player, if the showdown gets that far. */
  function Winner(t: Table): (w: Option<Player>)
    requires t.hand.Some?
    ensures w.Some? ==> w.value in t.players && w.value.userId !in t.hand.value.folded
  {
    var k := WinnerIndex(t);
    if k < 0 then None else Some(Unfolded(t)[k])
  }

  /** `showdown`: the winner's stack grows by the pot (which is not emptied), then `endHand`. */
  function Showdown(t: Table, balances: map<UserId, int>): (s: Step)
    requires t.hand.Some?
  {
    match Winner(t)
    case None => Step(t, balances, Crashed)
    case Some(w) => EndHand(t.(players := AddToStack(t.players, w.userId, t.hand.value.pot)), balances)
  }

  // -------------------------------------------------------- the turn loop

  /**
    `advanceTurn`: a finished round goes to `completeBettingRound`; otherwise
    the turn moves along the action order to the first player who may act,
    who is prompted. A scan that meets a missing player crashes; one that
    runs out of attempts completes the round.
  */
  function AdvanceTurn(t: Table, balances: map<UserId, int>): (s: Step)
    requires InTurn(t)
    decreases 3 - PhaseRank(t.hand.value.phase), 1
  {
    var h := t.hand.value;
    if IsBettingRoundComplete(t.players, h.folded, h.allIn, h.moves, h.currentBets) then
      CompleteRound(t, balances)
    else
      match Scan(h.actionOrder, t.players, h.folded, h.allIn, h.currentPlayerIndex, |t.players|)
      case Found(i) => Step(t.(hand := Some(h.(currentPlayerIndex := i))), balances, Prompted(h.actionOrder[i]))
      case ScanCrash(i) => Step(t.(hand := Some(h.(currentPlayerIndex := i))), balances, Crashed)
      case Exhausted(i) => CompleteRound(t.(hand := Some(h.(currentPlayerIndex := i))), balances)
  }

  /**
    `completeBettingRound`: with one unfolded player left the hand ends (the
    pot is not paid out); after the river comes the showdown; otherwise the
    next street is dealt and the turn advances.
  */
  function CompleteRound(t: Table, balances: map<UserId, int>): (s: Step)
    requires InTurn(t)
    decreases 3 - PhaseRank(t.hand.value.phase), 0
  {
    var h := t.hand.value;
    if |Unfolded(t)| == 1 then EndHand(t, balances)
    else if h.phase == River then Showdown(t, balances)
    else AdvanceTurn(t.(hand := Some(DealStreet(h))), balances)
  }

  // ------------------------------------------------------------- actions

  /**
    `handlePlayerAction`: the move is recorded first; a user without a seat
    then crashes the handler. Otherwise the chips the action moves leave the
    player's stack for the pot and the turn advances.
  */
  ghost function PlayerAction(t: Table, balances: map<UserId, int>, uid: UserId, action: Action, amount: int): (s: Step)
    requires InTurn(t)
  {
    var h := t.hand.value;
    match FindPlayer(t.players, uid)
    case None => Step(t.(hand := Some(h.(moves := h.moves[uid := action]))), balances, Crashed)
    case Some(p) => AdvanceTurn(Acted(t, p, action, amount, MaxBet(h.currentBets)), balances)
  }

  /**
    The table after the action's chips and bookkeeping, before the turn
    advances, when the largest street bet is `maxBet`.
  */
  function Acted(t: Table, p: Player, action: Action, amount: int, maxBet: int): (t': Table)
    requires InTurn(t)
    ensures InTurn(t')
  {
    var h := t.hand.value;
    var x := Moved(action, p.stack, BetOf(h.currentBets, p.userId), maxBet, amount);
    t.(players := TakeFromStack(t.players, p.userId, x),
       hand := Some(Act(h, p.userId, p.stack, action, amount, maxBet)))
  }

  // ---------------------------------------------------------- a new hand

  /**
    `startHand` once the waiting list is seated and the leavers paid and
    removed: the blinds are posted, the hole cards dealt from `deck` and the
    turn advanced.
  */
  function Deal(t: Table, balances: map<UserId, int>, deck: seq<Card>): (s: Step)
    requires |t.players| >= MIN_PLAYERS && t.dealerPos >= 0
  {
    AdvanceTurn(Blinded(t, deck), balances)
  }

  /** The seat after i at a table of n: `(i + 1) % n`. */
  function NextSeat(i: int, n: int): (j: int)
    requires 0 <= i && n > 0
    ensures 0 <= j < n
  {
    (i + 1) % n
  }

  /**
    The table once the dealer button has moved and the blinds are posted:
    the two seats after the dealer pay 50 and 100, whatever their stacks.
  */
  function Blinded(t: Table, deck: seq<Card>): (t': Table)
    requires |t.players| >= MIN_PLAYERS && t.dealerPos >= 0
    ensures InTurn(t')
  {
    var n := |t.players|;
    var dealer := NextSeat(t.dealerPos, n);
    var sb := NextSeat(dealer, n);
    var bb := NextSeat(sb, n);
    var stacks := TakeAt(TakeAt(t.players, sb, SMALL_BLIND), bb, BIG_BLIND);
    var h := Opening(t.players, dealer, deck, t.players[sb].userId, t.players[bb].userId);
    t.(players := stacks, dealerPos := dealer, handNum := t.handNum + 1, hand := Some(h))
  }

  /**
    The hand `setupHand` opens for dealer seat `dealer`, after `startHand`
    has set the blinds of `sb` and `bb` as their street and hand bets, put
    them in the pot, and dealt every player, in seat order, two hole cards.
  */
  function Opening(players: seq<Player>, dealer: int, deck: seq<Card>, sb: UserId, bb: UserId): (h: HandState)
    requires 0 <= dealer < |players|
  {
    var blinds := map[sb := SMALL_BLIND][bb := BIG_BLIND];
    HandState(Preflop, AfterPops(deck, 2 * |players|), [], HoleCardsFor(deck, Ids(players)),
              SMALL_BLIND + BIG_BLIND, blinds, blinds, Rotation(players, dealer), 0,
              BIG_BLIND, {}, {}, map[])
  }

  /**
    `startHand`: seat the waiting users who can afford it, pay and remove
    the leavers; one player left ends the game, none sends the table back
    to waiting, two or more play a hand.
  */
  function StartHand(t: Table, balances: map<UserId, int>, deck: seq<Card>): (s: Step)
    requires t.dealerPos >= 0
  {
    var seated := SeatAll(t.players, t.waitList, balances);
    var paid := PayLeavers(balances, seated, t.leaveList);
    var stay := Staying(seated, t.leaveList);
    var t1 := t.(players := stay, waitList := [], leaveList := []);
    if |stay| == 1 then EndGame(t1, paid)
    else if |stay| < MIN_PLAYERS then Step(t1.(status := Waiting), paid, BackToWaiting)
    else Deal(t1, paid, deck)
  }

  // --------------------------------------------------------------- proofs

  /** What `advanceTurn` guarantees: a prompt goes to the seat the turn points at, in an unfinished round. */
  ghost predicate TurnSound(t: Table, balances: map<UserId, int>, s: Step) {
    && s.table.hand.Some? && HandOk(s.table.hand.value)
    && s.progress != BackToWaiting
    && (s.progress != GameOver ==> s.balances == balances)
    && (s.progress.Prompted? ==>
          var h := s.table.hand.value;
          && s.progress.userId == h.actionOrder[h.currentPlayerIndex]
          && CanAct(s.table.players, h.folded, h.allIn, s.progress.userId) == Some(true)
          && !IsBettingRoundComplete(s.table.players, h.folded, h.allIn, h.moves, h.currentBets))
  }

  /**
    From a well-formed hand, `advanceTurn` keeps the hand well-formed, only
    touches the ledger when the game ends, and prompts only a player who is
    the one whose turn it is, has not folded, is not all-in and has chips,
    while the round is still open.
  */
  lemma {:induction false} AdvanceTurnSound(t: Table, balances: map<UserId, int>)
    requires InTurn(t) && HandOk(t.hand.value)
    ensures TurnSound(t, balances, AdvanceTurn(t, balances))
    decreases 3 - PhaseRank(t.hand.value.phase), 1
  {
    var h := t.hand.value;
    if IsBettingRoundComplete(t.players, h.folded, h.allIn, h.moves, h.currentBets) {
      CompleteRoundSound(t, balances);
    } else {
      var r := Scan(h.actionOrder, t.players, h.folded, h.allIn, h.currentPlayerIndex, |t.players|);
      ScanOutcome(h.actionOrder, t.players, h.folded, h.allIn, h.currentPlayerIndex, |t.players|);
      var t' := t.(hand := Some(h.(currentPlayerIndex := r.index)));
      assert HandOk(t'.hand.value);
      if r.Exhausted? {
        CompleteRoundSound(t', balances);
      }
    }
  }

  lemma {:induction false} CompleteRoundSound(t: Table, balances: map<UserId, int>)
    requires InTurn(t) && HandOk(t.hand.value)
    ensures TurnSound(t, balances, CompleteRound(t, balances))
    decreases 3 - PhaseRank(t.hand.value.phase), 0
  {
    var h := t.hand.value;
    if |Unfolded(t)| != 1 && h.phase != River {
      DealStreetAdvances(h);
      AdvanceTurnSound(t.(hand := Some(DealStreet(h))), balances);
    }
  }

  /**
    Chips are conserved by an action: what leaves the player's stack is
    what the pot gains, so stacks + pot is unchanged, and the hand stays
    well-formed.
  */
  lemma {:induction false} ActedConservesChips(t: Table, p: Player, action: Action, amount: int, maxBet: int)
    requires InTurn(t) && HandOk(t.hand.value) && p.userId in t.hand.value.actionOrder
    requires FindPlayer(t.players, p.userId) == Some(p)
    ensures var t' := Acted(t, p, action, amount, maxBet);
      && HandOk(t'.hand.value)
      && StackSum(t'.players) + t'.hand.value.pot == StackSum(t.players) + t.hand.value.pot
      && FindPlayer(t'.players, p.userId).value.stack + BetOf(t'.hand.value.bets, p.userId)
         == p.stack + BetOf(t.hand.value.bets, p.userId)
  {
    var h := t.hand.value;
    var x := Moved(action, p.stack, BetOf(h.currentBets, p.userId), maxBet, amount);
    ActConservesChips(h, p.userId, p.stack, action, amount, maxBet);
    TakeFromStackSum(t.players, p.userId, x);
  }

  /**
    The opening of a hand: from distinct players and two different blind
    seats, the hand is well-formed, its action order is every seat once, the
    pot holds exactly the blinds, and each player got the next two pops.
  */
  lemma {:induction false} OpeningOk(players: seq<Player>, dealer: int, deck: seq<Card>, sb: UserId, bb: UserId)
    requires 0 <= dealer < |players| && Distinct(Ids(players))
    requires sb in Ids(players) && bb in Ids(players) && sb != bb
    ensures var h := Opening(players, dealer, deck, sb, bb);
      && HandOk(h)
      && multiset(h.actionOrder) == multiset(Ids(players))
      && h.pot == SMALL_BLIND + BIG_BLIND
      && HoleCardsDealt(h.holeCards, deck, Ids(players))
  {
    var order := Rotation(players, dealer);
    RotationIsPermutation(players, dealer);
    assert sb in multiset(Ids(players)) && bb in multiset(Ids(players));
    assert sb in order && bb in order;
    SumBetsOfTwo(order, sb, bb, SMALL_BLIND, BIG_BLIND);
    HoleCardsForDeals(deck, Ids(players));
  }

  /**
    Posting the blinds: the two seats after the new dealer are different
    seats, and what the pot holds came out of the stacks.
  */
  lemma {:induction false} BlindsPosted(t: Table, deck: seq<Card>)
    requires |t.players| >= MIN_PLAYERS && t.dealerPos >= 0 && Distinct(Ids(t.players))
    ensures var t' := Blinded(t, deck);
      && HandOk(t'.hand.value)
      && multiset(t'.hand.value.actionOrder) == multiset(Ids(t.players))
      && StackSum(t'.players) + t'.hand.value.pot == StackSum(t.players)
      && Ids(t'.players) == Ids(t.players)
      && HoleCardsDealt(t'.hand.value.holeCards, deck, Ids(t.players))
  {
    var n := |t.players|;
    var dealer := NextSeat(t.dealerPos, n);
    var sb := NextSeat(dealer, n);
    var bb := NextSeat(sb, n);
    ModBelowTwice(sb + 1, n);
    assert Ids(t.players)[sb] != Ids(t.players)[bb];
    var p1 := TakeAt(t.players, sb, SMALL_BLIND);
    TakeAtSum(t.players, sb, SMALL_BLIND);
    TakeAtSum(p1, bb, BIG_BLIND);
    OpeningOk(t.players, dealer, deck, t.players[sb].userId, t.players[bb].userId);
  }

  /**
    A player who leaves `endHand` with no chips is never settled: their
    ledger balance is what it was before the hand, though they lost their
    stack at the table.
  */
  lemma {:induction false} BustedLeaveUnsettled(t: Table, balances: map<UserId, int>, p: Player)
    requires Distinct(Ids(t.players)) && p in t.players && p.stack <= 0
    ensures p.userId !in Ids(EndHand(t, balances).table.players)
    ensures BalanceIn(EndHand(t, balances).balances, p.userId) == BalanceIn(balances, p.userId)
  {
    var keep := WithChips(t.players);
    if p.userId in Ids(keep) {
      var j :| 0 <= j < |keep| && keep[j].userId == p.userId;
      assert keep[j] in keep;
      SameIdSameSeat(t.players, p, keep[j]);
    }
    if |keep| < MIN_PLAYERS {
      SettleAllSkips(balances, keep, p.userId);
    }
  }

  /**
    When everybody but one has folded, the round ends the hand without
    paying the pot to anybody: every player left at the table had that very
    stack before.
  */
  lemma {:induction false} FoldWinUnpaid(t: Table, balances: map<UserId, int>)
    requires InTurn(t) && |Unfolded(t)| == 1
    ensures var s := CompleteRound(t, balances);
      && (forall q :: q in s.table.players ==> q in t.players)
      && s.table.hand == t.hand
      && (s.progress == NextHandScheduled ==> s.balances == balances)
  {
  }

  /**
    The showdown pays the pot to the winner: for distinct players the
    winner's stack, and the table's total, grow by exactly the pot before
    `endHand` clears the broke.
  */
  lemma {:induction false} ShowdownPaysWinner(t: Table, balances: map<UserId, int>)
    requires t.hand.Some? && Distinct(Ids(t.players)) && Winner(t).Some?
    ensures var w := Winner(t).value;
      var paid := AddToStack(t.players, w.userId, t.hand.value.pot);
      && FindPlayer(paid, w.userId).value.stack == w.stack + t.hand.value.pot
      && StackSum(paid) == StackSum(t.players) + t.hand.value.pot
      && Showdown(t, balances) == EndHand(t.(players := paid), balances)
  {
    var w := Winner(t).value;
    PayWinner(t.players, w, t.hand.value.pot);
  }

  /** Paying the pot to a seated player w adds it to w's stack and to the table's total. */
  lemma PayWinner(players: seq<Player>, w: Player, pot: int)
    requires Distinct(Ids(players)) && w in players
    ensures var paid := AddToStack(players, w.userId, pot);
      && FindPlayer(paid, w.userId).value.stack == w.stack + pot
      && StackSum(paid) == StackSum(players) + pot
  {
    var i := IndexOfId(players, w.userId);
    var k :| 0 <= k < |players| && players[k] == w;
    assert Ids(players)[k] == w.userId;
    assert players[i] == w by {
      assert Ids(players)[i] == Ids(players)[k];
    }
    AddToStackSum(players, w.userId, pot);
  }

  // ------------------------------------------------------- the table's invariant

  /** No user is seated twice, waits twice, or both sits and waits. */
  predicate Apart(players: seq<Player>, waitList: seq<UserId>) {
    && Distinct(Ids(players)) && Distinct(waitList)
    && forall i :: 0 <= i < |waitList| ==> waitList[i] !in Ids(players)
  }

  /**
    What holds of the table between commands: users are seated at most
    once, the dealer position is a seat number, and a hand, if any, is
    well-formed.
  */
  ghost predicate TableOk(t: Table) {
    && t.dealerPos >= 0
    && Apart(t.players, t.waitList)
    && (t.hand.Some? ==> HandOk(t.hand.value))
  }

  /** `after` only holds users of `before`, and keeps them apart if they were. */
  ghost predicate Kept(before: seq<Player>, after: seq<Player>) {
    && (forall u :: u in Ids(after) ==> u in Ids(before))
    && (Distinct(Ids(before)) ==> Distinct(Ids(after)))
  }

  lemma FilterKept(players: seq<Player>, keep: Player -> bool)
    ensures Kept(players, Filter(players, keep))
  {
    var r := Filter(players, keep);
    forall u | u in Ids(r) ensures u in Ids(players) {
      var i :| 0 <= i < |r| && Ids(r)[i] == u;
      assert r[i] in players;
      var j :| 0 <= j < |players| && players[j] == r[i];
      assert Ids(players)[j] == u;
    }
    if Distinct(Ids(players)) {
      FilterKeepsDistinct(players, keep);
    }
  }

  /**
    The turn loop seats nobody new and never seats anybody twice: it only
    moves chips between stacks and the pot and clears out the broke.
  */
  lemma {:induction false} AdvanceTurnKept(t: Table, balances: map<UserId, int>)
    requires InTurn(t)
    ensures var s := AdvanceTurn(t, balances);
      && Kept(t.players, s.table.players)
      && s.table.waitList == t.waitList && s.table.dealerPos == t.dealerPos
    decreases 3 - PhaseRank(t.hand.value.phase), 1
  {
    var h := t.hand.value;
    if IsBettingRoundComplete(t.players, h.folded, h.allIn, h.moves, h.currentBets) {
      CompleteRoundKept(t, balances);
    } else {
      var r := Scan(h.actionOrder, t.players, h.folded, h.allIn, h.currentPlayerIndex, |t.players|);
      if r.Exhausted? {
        CompleteRoundKept(t.(hand := Some(h.(currentPlayerIndex := r.index))), balances);
      }
    }
  }

  lemma {:induction false} CompleteRoundKept(t: Table, balances: map<UserId, int>)
    requires InTurn(t)
    ensures var s := CompleteRound(t, balances);
      && Kept(t.players, s.table.players)
      && s.table.waitList == t.waitList && s.table.dealerPos == t.dealerPos
    decreases 3 - PhaseRank(t.hand.value.phase), 0
  {
    var h := t.hand.value;
    if |Unfolded(t)| != 1 && h.phase != River {
      AdvanceTurnKept(t.(hand := Some(DealStreet(h))), balances);
    }
  }

  /** Acting on the hand keeps the table's invariant. */
  lemma PlayerActionOk(t: Table, balances: map<UserId, int>, uid: UserId, action: Action, amount: int)
    requires TableOk(t) && t.hand.Some? && uid in t.hand.value.actionOrder
    ensures TableOk(PlayerAction(t, balances, uid, action, amount).table)
  {
    var h := t.hand.value;
    var p := FindPlayer(t.players, uid);
    if p.Some? {
      var t' := Acted(t, p.value, action, amount, MaxBet(h.currentBets));
      ActedConservesChips(t, p.value, action, amount, MaxBet(h.currentBets));
      AdvanceTurnSound(t', balances);
      AdvanceTurnKept(t', balances);
    }
  }

  /** Seating the waiting list seats nobody twice. */
  lemma {:induction false} SeatAllApart(players: seq<Player>, waitList: seq<UserId>, balances: map<UserId, int>)
    requires Apart(players, waitList)
    ensures Distinct(Ids(SeatAll(players, waitList, balances)))
  {
    if waitList != [] {
      var n := |waitList|;
      var init := waitList[..n - 1];
      var u := waitList[n - 1];
      assert Apart(players, init);
      SeatAllApart(players, init, balances);
      var prev := SeatAll(players, init, balances);
      if BalanceIn(balances, u) >= MIN_BALANCE_REQUIRED {
        forall i | 0 <= i < |prev| ensures prev[i].userId != u {
          if i < |players| {
            assert prev[i] == players[i];
            assert Ids(players)[i] == prev[i].userId;
          } else {
            var k :| 0 <= k < |init| && init[k] == prev[i].userId;
          }
        }
        var r := SeatAll(players, waitList, balances);
        assert r == prev + [r[|r| - 1]];
        assert Ids(r) == Ids(prev) + [u];
      }
    }
  }

  /** Dealing to a table of at least two distinct players gives a table that keeps the invariant. */
  lemma DealOk(t: Table, balances: map<UserId, int>, deck: seq<Card>)
    requires |t.players| >= MIN_PLAYERS && t.dealerPos >= 0 && Apart(t.players, t.waitList)
    ensures TableOk(Deal(t, balances, deck).table)
  {
    var t2 := Blinded(t, deck);
    BlindsPosted(t, deck);
    AdvanceTurnSound(t2, balances);
    AdvanceTurnKept(t2, balances);
  }

  /**
    Starting a hand keeps the table's invariant: the waiting list is seated
    without repeats and emptied, and a dealt hand is well-formed.
  */
  lemma StartHandOk(t: Table, balances: map<UserId, int>, deck: seq<Card>)
    requires TableOk(t)
    ensures TableOk(StartHand(t, balances, deck).table)
  {
    var seated := SeatAll(t.players, t.waitList, balances);
    SeatAllApart(t.players, t.waitList, balances);
    var stay := Staying(seated, t.leaveList);
    var t1 := t.(players := stay, waitList := [], leaveList := []);
    assert Apart(t1.players, []);
    if |stay| >= MIN_PLAYERS {
      DealOk(t1, PayLeavers(balances, seated, t.leaveList), deck);
    }
  }
}
