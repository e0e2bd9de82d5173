/**
  The pure rules of the poker table in src/commands/poker.js: seat order,
  the betting-round test, the buttons offered to a player, the button
  handler's checks, the scan for the next player to act, the showdown
  pick and the bookkeeping sums the table keeps.
*/
module PokerRules {
  import opened Wrappers
  import opened JsNum
  import opened Shuffle
  import opened Db
  import opened PokerCards

  const BIG_BLIND: int := 100
  const SMALL_BLIND: int := 50
  const MIN_BALANCE_REQUIRED: int := 10 * BIG_BLIND
  const MIN_PLAYERS: int := 2
  const MAX_PLAYERS: int := 8

  datatype Status = Waiting | Active | Ended

  datatype Phase = Preflop | Flop | Turn | River

  datatype Action = Fold | Check | Call | Raise | AllIn

  /** A seat: `stack` is what the player has at the table, `buyIn` what they brought. */
  datatype Player = Player(userId: UserId, username: string, stack: int, seat: int, buyIn: int)

  /** `deck.pop()`: the last card, or `undefined` (None) once the deck is empty. */
  type Dealt = Option<Card>

  // ------------------------------------------------------------ players

  function Ids(players: seq<Player>): (ids: seq<UserId>)
    ensures |ids| == |players|
    ensures forall i :: 0 <= i < |players| ==> ids[i] == players[i].userId
  {
    seq(|players|, i requires 0 <= i < |players| => players[i].userId)
  }

  /** Index of the first seat of `uid` (`players.find`), or -1. */
  function IndexOfId(players: seq<Player>, uid: UserId): (i: int)
    ensures -1 <= i < |players|
    ensures i == -1 <==> uid !in Ids(players)
    ensures i >= 0 ==> players[i].userId == uid
    ensures i >= 0 ==> forall j :: 0 <= j < i ==> players[j].userId != uid
  {
    if players == [] then -1
    else if players[0].userId == uid then 0
    else
      var j := IndexOfId(players[1..], uid);
      assert Ids(players) == [players[0].userId] + Ids(players[1..]);
      if j == -1 then -1 else j + 1
  }

  /** `players.find(p => p.userId === uid)`. */
  function FindPlayer(players: seq<Player>, uid: UserId): (r: Option<Player>)
    ensures r.Some? <==> uid in Ids(players)
    ensures r.Some? ==> r.value.userId == uid && r.value in players
  {
    var i := IndexOfId(players, uid);
    if i == -1 then None else Some(players[i])
  }

  /** Sum of the stacks at the table. */
  function StackSum(players: seq<Player>): int {
    if players == [] then 0 else StackSum(players[..|players| - 1]) + players[|players| - 1].stack
  }

  // ---------------------------------------------------------- seat order

  /** The action order `setupHand` builds: every seat, starting after the dealer. */
  function Rotation(players: seq<Player>, dealerPos: int): (order: seq<UserId>)
    requires 0 <= dealerPos < |players|
    ensures |order| == |players|
  {
    var n := |players|;
    seq(n, i requires 0 <= i < n => players[(dealerPos + 1 + i) % n].userId)
  }

  lemma ModBelowTwice(x: int, n: int)
    requires 0 <= x < 2 * n
    ensures x % n == if x < n then x else x - n
  {
    if x < n {
      assert x == 0 * n + x;
    } else {
      assert x == 1 * n + (x - n);
    }
  }

  /** The rotation is the seat list cut after the dealer: a permutation of the seated ids. */
  lemma RotationIsPermutation(players: seq<Player>, dealerPos: int)
    requires 0 <= dealerPos < |players|
    ensures multiset(Rotation(players, dealerPos)) == multiset(Ids(players))
    ensures Distinct(Ids(players)) ==> Distinct(Rotation(players, dealerPos))
  {
    var n := |players|;
    var ids := Ids(players);
    var k := if dealerPos + 1 == n then 0 else dealerPos + 1;
    var r := Rotation(players, dealerPos);
    forall i | 0 <= i < n ensures r[i] == (ids[k..] + ids[..k])[i] {
      ModBelowTwice(dealerPos + 1 + i, n);
    }
    assert r == ids[k..] + ids[..k];
    assert ids == ids[..k] + ids[k..];
    assert multiset(r) == multiset(ids[k..]) + multiset(ids[..k]) == multiset(ids);
    if Distinct(ids) {
      PermutationKeepsDistinct(ids, r);
    }
  }

  /** The `for` loop of `setupHand` that pushes the rotated ids. */
  method SetupOrder(players: seq<Player>, dealerPos: int) returns (order: seq<UserId>)
    requires 0 <= dealerPos < |players|
    ensures order == Rotation(players, dealerPos)
    ensures multiset(order) == multiset(Ids(players))
  {
    order := [];
    var i := 0;
    while i < |players|
      invariant 0 <= i <= |players|
      invariant order == Rotation(players, dealerPos)[..i]
    {
      order := order + [players[(dealerPos + 1 + i) % |players|].userId];
      i := i + 1;
    }
    RotationIsPermutation(players, dealerPos);
  }

  // -------------------------------------------------------------- phases

  function PhaseRank(p: Phase): nat {
    match p
    case Preflop => 0
    case Flop => 1
    case Turn => 2
    case River => 3
  }

  /** Number of community cards on the board once a street has been dealt. */
  function BoardSize(p: Phase): (n: nat)
    ensures n == if p == Preflop then 0 else PhaseRank(p) + 2
  {
    match p
    case Preflop => 0
    case Flop => 3
    case Turn => 4
    case River => 5
  }

  // ------------------------------------------------------------- betting

  /** `map[uid] || 0`. */
  function BetOf(bets: map<UserId, int>, uid: UserId): int {
    if uid in bets then bets[uid] else 0
  }

  /** Sum of the bets of the players in `order`. */
  function SumBets(order: seq<UserId>, bets: map<UserId, int>): int {
    if order == [] then 0 else BetOf(bets, order[0]) + SumBets(order[1..], bets)
  }

  /** Adding x to the bet of a player who sits once in the order adds x to the sum. */
  lemma {:induction false} SumBetsAdd(order: seq<UserId>, bets: map<UserId, int>, uid: UserId, x: int)
    requires Distinct(order) && uid in order
    ensures SumBets(order, bets[uid := BetOf(bets, uid) + x]) == SumBets(order, bets) + x
    decreases |order|
  {
    var bets' := bets[uid := BetOf(bets, uid) + x];
    assert Distinct(order[1..]);
    if order[0] == uid {
      assert uid !in order[1..];
      SumBetsUnaffected(order[1..], bets, uid, BetOf(bets, uid) + x);
    } else {
      SumBetsAdd(order[1..], bets, uid, x);
    }
  }

  /** Changing the bet of someone outside the order leaves the sum alone. */
  lemma {:induction false} SumBetsUnaffected(order: seq<UserId>, bets: map<UserId, int>, uid: UserId, v: int)
    requires uid !in order
    ensures SumBets(order, bets[uid := v]) == SumBets(order, bets)
    decreases |order|
  {
    if order != [] {
      SumBetsUnaffected(order[1..], bets, uid, v);
    }
  }

  /** Bets of exactly two players (the blinds) sum to their total. */
  lemma {:induction false} SumBetsOfTwo(order: seq<UserId>, a: UserId, b: UserId, x: int, y: int)
    requires Distinct(order) && a in order && b in order && a != b
    ensures SumBets(order, map[a := x, b := y]) == x + y
  {
    var m0: map<UserId, int> := map[];
    SumBetsEmpty(order);
    SumBetsAdd(order, m0, a, x);
    assert m0[a := BetOf(m0, a) + x] == map[a := x];
    SumBetsAdd(order, map[a := x], b, y);
    assert map[a := x][b := BetOf(map[a := x], b) + y] == map[a := x, b := y];
  }

  lemma {:induction false} SumBetsEmpty(order: seq<UserId>)
    ensures SumBets(order, map[]) == 0
    decreases |order|
  {
    if order != [] {
      SumBetsEmpty(order[1..]);
    }
  }

  /** `Math.max(...Object.values(currentBets))`, or 0 for no bets. */
  ghost function MaxBet(bets: map<UserId, int>): (r: int)
    ensures bets == map[] ==> r == 0
    ensures bets != map[] ==> r in bets.Values
    ensures forall u :: u in bets ==> bets[u] <= r
  {
    if bets == map[] then 0
    else
      var m := MaxOfSet(bets.Values);
      assert forall u :: u in bets ==> bets[u] in bets.Values;
      m
  }

  ghost function MaxOfSet(s: set<int>): (m: int)
    requires s != {}
    ensures m in s && forall x :: x in s ==> x <= m
  {
    HasElement(s);
    var x :| x in s;
    if s == {x} then x
    else
      var rest := MaxOfSet(s - {x});
      assert forall y :: y in s ==> y == x || y in s - {x};
      Max(x, rest)
  }

  lemma HasElement(s: set<int>)
    requires s != {}
    ensures exists y :: y in s
  {
    if forall y :: y !in s {
      assert false;
    }
  }

  /** The largest value is the only one at or above every value. */
  lemma MaxBetUnique(bets: map<UserId, int>, m: int)
    requires bets == map[] ==> m == 0
    requires bets != map[] ==> m in bets.Values
    requires forall u :: u in bets ==> bets[u] <= m
    ensures m == MaxBet(bets)
  {
    if bets != map[] {
      var u :| u in bets && bets[u] == m;
      var v :| v in bets && bets[v] == MaxBet(bets);
      assert bets[u] <= MaxBet(bets) && bets[v] <= m;
    }
  }

  /** `Math.max(...s)` guarded by `s.length > 0 ? … : 0`. */
  function SeqMax(s: seq<int>): (r: int)
    ensures s == [] ==> r == 0
    ensures s != [] ==> r in s && forall i :: 0 <= i < |s| ==> s[i] <= r
  {
    if s == [] then 0
    else if |s| == 1 then s[0]
    else
      var m := SeqMax(s[1..]);
      assert forall i :: 1 <= i < |s| ==> s[i] == s[1..][i - 1];
      Max(s[0], m)
  }

  /** Players still able to bet: not folded, not all-in, chips left. */
  function Eligible(players: seq<Player>, folded: set<UserId>, allIn: set<UserId>): (r: seq<Player>)
    ensures |r| <= |players|
    ensures forall p :: p in r <==> p in players && p.userId !in folded && p.userId !in allIn && p.stack > 0
  {
    if players == [] then []
    else
      var rest := Eligible(players[1..], folded, allIn);
      var p := players[0];
      assert forall q :: q in players <==> q == p || q in players[1..];
      if p.userId !in folded && p.userId !in allIn && p.stack > 0 then [p] + rest else rest
  }

  /** The bet each eligible player has in this street (`currentBets[id] || 0`). */
  function StreetBets(active: seq<Player>, currentBets: map<UserId, int>): (r: seq<int>)
    ensures |r| == |active|
    ensures forall i :: 0 <= i < |active| ==> r[i] == BetOf(currentBets, active[i].userId)
  {
    seq(|active|, i requires 0 <= i < |active| => BetOf(currentBets, active[i].userId))
  }

  /** Every eligible player has a recorded move in this street. */
  predicate AllActed(active: seq<Player>, moves: map<UserId, Action>) {
    forall p :: p in active ==> p.userId in moves
  }

  /** All eligible players have put the same amount in this street. */
  predicate EqualBets(active: seq<Player>, currentBets: map<UserId, int>) {
    forall i, j :: 0 <= i < |active| && 0 <= j < |active| ==>
      BetOf(currentBets, active[i].userId) == BetOf(currentBets, active[j].userId)
  }

  /** Every value equals the maximum exactly when all values are equal. */
  lemma AllAtMaxIffEqual(bets: seq<int>)
    requires bets != []
    ensures (forall b :: b in bets ==> b == SeqMax(bets)) <==>
            (forall i, j :: 0 <= i < |bets| && 0 <= j < |bets| ==> bets[i] == bets[j])
  {
    var m := SeqMax(bets);
    if forall b :: b in bets ==> b == m {
      forall i, j | 0 <= i < |bets| && 0 <= j < |bets| ensures bets[i] == bets[j] {
        assert bets[i] in bets && bets[j] in bets;
      }
    }
    if forall i, j :: 0 <= i < |bets| && 0 <= j < |bets| ==> bets[i] == bets[j] {
      var k :| 0 <= k < |bets| && bets[k] == m;
      forall b | b in bets ensures b == m {
        var i :| 0 <= i < |bets| && bets[i] == b;
        assert bets[i] == bets[k];
      }
    }
  }

  /**
    `isBettingRoundComplete`: true when at most one player can still bet, or
    when every such player has a recorded move and all their street bets
    equal the largest of them.
  */
  function IsBettingRoundComplete(players: seq<Player>, folded: set<UserId>, allIn: set<UserId>,
                                  moves: map<UserId, Action>, currentBets: map<UserId, int>): (done: bool)
    ensures done <==>
      |Eligible(players, folded, allIn)| <= 1 ||
      (AllActed(Eligible(players, folded, allIn), moves) && EqualBets(Eligible(players, folded, allIn), currentBets))
  {
    var active := Eligible(players, folded, allIn);
    if |active| <= 1 then true
    else if !(forall p :: p in active ==> p.userId in moves) then false
    else
      var bets := StreetBets(active, currentBets);
      var maxBet := SeqMax(bets);
      AllAtMaxIffEqual(bets);
      forall b :: b in bets ==> b == maxBet
  }

  // -------------------------------------------------------------- buttons

  datatype Button = FoldButton | CheckButton | CallButton(toCall: int) | RaiseButton(times: int) | AllInButton(stack: int)

  /** The `custom_id` each button carries. */
  function ButtonId(b: Button): string {
    match b
    case FoldButton => "poker_fold"
    case CheckButton => "poker_check"
    case CallButton(_) => "poker_call"
    case RaiseButton(t) => if t == 1 then "poker_raise_1x" else "poker_raise_2x"
    case AllInButton(_) => "poker_allin"
  }

  /** The check button when nothing is owed, else the call button when the stack covers it. */
  function CheckOrCall(stack: int, toCall: int): (r: seq<Button>)
    ensures |r| <= 1
    ensures CheckButton in r <==> toCall == 0
    ensures CallButton(toCall) in r <==> toCall != 0 && stack >= toCall
    ensures forall b :: b in r ==> b == CheckButton || b == CallButton(toCall)
  {
    if toCall == 0 then [CheckButton]
    else if stack >= toCall then [CallButton(toCall)]
    else []
  }

  /** The 1x and 2x raise buttons, for a stack beyond the call that covers the raise. */
  function Raises(stack: int, toCall: int, minRaise: int): (r: seq<Button>)
    ensures |r| <= 2
    ensures RaiseButton(1) in r <==> stack > toCall && stack >= toCall + minRaise
    ensures RaiseButton(2) in r <==> stack > toCall && stack >= toCall + minRaise * 2
    ensures forall b :: b in r ==> b == RaiseButton(1) || b == RaiseButton(2)
  {
    if stack > toCall then
      (if stack >= toCall + minRaise then [RaiseButton(1)] else []) +
      (if stack >= toCall + minRaise * 2 then [RaiseButton(2)] else [])
    else []
  }

  /**
    `createActionButtons`, for a player with `stack` who must put in `toCall`
    more: fold first, then the buttons of `CheckOrCall`, `Raises` and the
    all-in button for a stack with chips; never more than five.
  */
  function ActionButtons(stack: int, toCall: int, minRaise: int): (r: seq<Button>)
    ensures 1 <= |r| <= 5 && r[0] == FoldButton
    ensures forall b :: b in r <==>
      b == FoldButton || b in CheckOrCall(stack, toCall) || b in Raises(stack, toCall, minRaise) ||
      (stack > 0 && b == AllInButton(stack))
  {
    var checkOrCall := CheckOrCall(stack, toCall);
    var raises := Raises(stack, toCall, minRaise);
    var allIn := if stack > 0 then [AllInButton(stack)] else [];
    var buttons := [FoldButton] + checkOrCall + raises + allIn;
    assert |buttons| <= 5 && buttons[..Min(5, |buttons|)] == buttons;
    assert forall b :: b in buttons <==> b == FoldButton || b in checkOrCall || b in raises || b in allIn;
    buttons[..Min(5, |buttons|)]
  }

  /**
    The buttons a player is offered: check exactly when nothing is owed,
    call exactly when something is owed and the stack covers it, each raise
    exactly when the stack exceeds the call and covers the raise, all-in
    exactly when the stack has chips, and nothing else.
  */
  lemma ButtonsOffered(stack: int, toCall: int, minRaise: int)
    ensures var r := ActionButtons(stack, toCall, minRaise);
      && (CheckButton in r <==> toCall == 0)
      && (CallButton(toCall) in r <==> toCall != 0 && stack >= toCall)
      && (RaiseButton(1) in r <==> stack > toCall && stack >= toCall + minRaise)
      && (RaiseButton(2) in r <==> stack > toCall && stack >= toCall + minRaise * 2)
      && (AllInButton(stack) in r <==> stack > 0)
      && (forall b :: b in r ==> b == FoldButton || b == CheckButton || b == CallButton(toCall) ||
                                 b == RaiseButton(1) || b == RaiseButton(2) || b == AllInButton(stack))
  {
  }

  /** What `interact` makes of a button press by the player whose turn it is. */
  datatype Decision = Perform(action: Action, amount: int) | RejectCheck | RejectRaise | Ignore

  function StartsWith(s: string, prefix: string): bool {
    |prefix| <= |s| && s[..|prefix|] == prefix
  }

  /** The raise multiplier of a `poker_raise_…` id; unknown suffixes count as 1. */
  function RaiseMultiplier(customId: string): (m: int)
    ensures m == 1 || m == 2 || m == 3 || m == 5
  {
    if customId == "poker_raise_1x" then 1
    else if customId == "poker_raise_2x" then 2
    else if customId == "poker_raise_3x" then 3
    else if customId == "poker_raise_5x" then 5
    else 1
  }

  /**
    The button branch of `interact`: check only when nothing is owed, a raise
    of `toCall + minRaise * multiplier` only when the stack covers it.
  */
  function Decide(customId: string, stack: int, toCall: int, minRaise: int): (d: Decision)
    ensures customId == "poker_check" ==> (d == RejectCheck <==> toCall != 0)
    ensures d.Perform? && d.action == Raise ==>
      d.amount == toCall + minRaise * RaiseMultiplier(customId) && stack >= d.amount
    ensures d == RejectRaise ==> stack < toCall + minRaise * RaiseMultiplier(customId)
    ensures d.Perform? && d.action != Raise ==> d.amount == 0
    ensures customId == "poker_fold" ==> d == Perform(Fold, 0)
    ensures customId == "poker_check" && toCall == 0 ==> d == Perform(Check, 0)
    ensures customId == "poker_call" ==> d == Perform(Call, 0)
    ensures customId == "poker_allin" ==> d == Perform(AllIn, 0)
    ensures StartsWith(customId, "poker_raise_") ==>
      var amount := toCall + minRaise * RaiseMultiplier(customId);
      d == (if stack >= amount then Perform(Raise, amount) else RejectRaise)
    ensures d == Ignore <==>
      customId != "poker_fold" && customId != "poker_check" && customId != "poker_call" &&
      customId != "poker_allin" && !StartsWith(customId, "poker_raise_")
  {
    if customId == "poker_fold" then Perform(Fold, 0)
    else if customId == "poker_check" then (if toCall == 0 then Perform(Check, 0) else RejectCheck)
    else if customId == "poker_call" then Perform(Call, 0)
    else if customId == "poker_allin" then Perform(AllIn, 0)
    else if StartsWith(customId, "poker_raise_") then
      var amount := toCall + minRaise * RaiseMultiplier(customId);
      if stack >= amount then Perform(Raise, amount) else RejectRaise
    else Ignore
  }

  /** Every button the table offers is one `interact` accepts. */
  lemma OfferedButtonsAccepted(stack: int, toCall: int, minRaise: int, b: Button)
    requires b in ActionButtons(stack, toCall, minRaise)
    ensures Decide(ButtonId(b), stack, toCall, minRaise) ==
      match b
      case FoldButton => Perform(Fold, 0)
      case CheckButton => Perform(Check, 0)
      case CallButton(_) => Perform(Call, 0)
      case AllInButton(_) => Perform(AllIn, 0)
      case RaiseButton(t) => Perform(Raise, toCall + minRaise * t)
  {
    match b
    case CheckButton =>
      ButtonsOffered(stack, toCall, minRaise);
    case RaiseButton(t) =>
      RaiseAccepted(stack, toCall, minRaise, t);
    case _ =>
  }

  /** An offered raise button names a raise the stack covers. */
  lemma RaiseAccepted(stack: int, toCall: int, minRaise: int, t: int)
    requires RaiseButton(t) in ActionButtons(stack, toCall, minRaise)
    ensures Decide(ButtonId(RaiseButton(t)), stack, toCall, minRaise) == Perform(Raise, toCall + minRaise * t)
  {
    ButtonsOffered(stack, toCall, minRaise);
    var id := ButtonId(RaiseButton(t));
    assert StartsWith(id, "poker_raise_");
    if t == 1 {
      assert RaiseMultiplier(id) == 1 && stack >= toCall + minRaise;
    } else {
      assert t == 2 && RaiseMultiplier(id) == 2 && stack >= toCall + minRaise * 2;
    }
  }

  // ------------------------------------------------------- chip movement

  /**
    The chips an action moves from the stack into the pot: a call puts in
    `min(maxBet - currentBet, stack)` when that is positive, a raise its
    amount, an all-in the whole stack; fold and check move nothing.
  */
  function Moved(action: Action, stack: int, currentBet: int, maxBet: int, amount: int): (x: int)
    ensures action == Fold || action == Check ==> x == 0
    ensures action == Call ==> x >= 0 && x <= Max(0, stack) && x <= Max(0, maxBet - currentBet)
    ensures action == Call && x > 0 ==> x == maxBet - currentBet || x == stack
    ensures action == AllIn ==> stack - x == 0
  {
    match action
    case Fold => 0
    case Check => 0
    case Call => var c := Min(maxBet - currentBet, stack); if c > 0 then c else 0
    case Raise => amount
    case AllIn => stack
  }

  /** Whether the action writes `currentBets`/`bets` (a call only when it moves chips). */
  function WritesBet(action: Action, stack: int, currentBet: int, maxBet: int): bool {
    action == Raise || action == AllIn || (action == Call && Min(maxBet - currentBet, stack) > 0)
  }

  /** Whether the action puts the player in `allIn`. */
  function GoesAllIn(action: Action, stack: int, currentBet: int, maxBet: int, amount: int): (b: bool)
    ensures action == AllIn ==> b
    ensures b ==> stack - Moved(action, stack, currentBet, maxBet, amount) == 0 || action == AllIn
  {
    match action
    case Fold => false
    case Check => false
    case Call => Moved(action, stack, currentBet, maxBet, amount) > 0 && stack - Moved(action, stack, currentBet, maxBet, amount) == 0
    case Raise => stack - amount == 0
    case AllIn => true
  }

  /** A call never leaves a positive stack negative, and goes all-in exactly when it empties it. */
  lemma CallIsCapped(stack: int, currentBet: int, maxBet: int)
    requires stack > 0
    ensures var x := Moved(Call, stack, currentBet, maxBet, 0);
      stack - x >= 0 &&
      (GoesAllIn(Call, stack, currentBet, maxBet, 0) <==> maxBet - currentBet >= stack) &&
      (maxBet - currentBet >= 0 ==> currentBet + x == Min(maxBet, currentBet + stack))
  {
  }

  // ------------------------------------------------------------ the scan

  datatype ScanResult = Found(index: int) | Exhausted(index: int) | ScanCrash(index: int)

  /** Whether the seat at `uid` may act: not folded, not all-in, chips left (None: no such player). */
  function CanAct(players: seq<Player>, folded: set<UserId>, allIn: set<UserId>, uid: UserId): Option<bool> {
    if uid in folded || uid in allIn then Some(false)
    else match FindPlayer(players, uid)
      case None => None
      case Some(p) => Some(p.stack > 0)
  }

  /**
    The `while (attempts < players.length)` loop of `advanceTurn`: starting at
    `cpi`, step through the action order until someone can act, at most
    `budget` times. A missing player dereferenced by the test is a crash.
  */
  function Scan(order: seq<UserId>, players: seq<Player>, folded: set<UserId>, allIn: set<UserId>,
                cpi: int, budget: nat): (r: ScanResult)
    requires 0 <= cpi < |order|
    ensures 0 <= r.index < |order|
    decreases budget
  {
    if budget == 0 then Exhausted(cpi)
    else
      match CanAct(players, folded, allIn, order[cpi])
      case None => ScanCrash(cpi)
      case Some(ok) =>
        if ok then Found(cpi)
        else Scan(order, players, folded, allIn, (cpi + 1) % |order|, budget - 1)
  }

  /** The seat reached after k steps of `(i + 1) % n`. */
  function Advance(cpi: int, k: nat, n: int): (r: int)
    requires 0 <= cpi < n
    ensures 0 <= r < n
    decreases k
  {
    if k == 0 then cpi else Advance((cpi + 1) % n, k - 1, n)
  }

  lemma {:induction false} AdvanceWraps(cpi: int, k: nat, n: int)
    requires 0 <= cpi < n && k <= n
    ensures Advance(cpi, k, n) == if cpi + k < n then cpi + k else cpi + k - n
    decreases k
  {
    if k > 0 {
      ModBelowTwice(cpi + 1, n);
      AdvanceWraps((cpi + 1) % n, k - 1, n);
    }
  }

  /** A scan that runs out has passed only seats that could not act. */
  lemma {:induction false} ScanExhaustedSkipped(order: seq<UserId>, players: seq<Player>, folded: set<UserId>,
                                                allIn: set<UserId>, cpi: int, budget: nat, k: nat)
    requires 0 <= cpi < |order| && k < budget
    requires Scan(order, players, folded, allIn, cpi, budget).Exhausted?
    ensures CanAct(players, folded, allIn, order[Advance(cpi, k, |order|)]) == Some(false)
    decreases budget
  {
    if k > 0 {
      ScanExhaustedSkipped(order, players, folded, allIn, (cpi + 1) % |order|, budget - 1, k - 1);
    }
  }

  /**
    The scan stops on a player who may act; when its budget covers the whole
    order and it runs out, nobody in the order may act.
  */
  lemma ScanOutcome(order: seq<UserId>, players: seq<Player>, folded: set<UserId>, allIn: set<UserId>,
                    cpi: int, budget: nat)
    requires 0 <= cpi < |order|
    ensures var r := Scan(order, players, folded, allIn, cpi, budget);
      (r.Found? ==> CanAct(players, folded, allIn, order[r.index]) == Some(true)) &&
      (r.ScanCrash? ==> CanAct(players, folded, allIn, order[r.index]).None?) &&
      (r.Exhausted? && budget >= |order| ==>
        forall i :: 0 <= i < |order| ==> CanAct(players, folded, allIn, order[i]) == Some(false))
  {
    var r := Scan(order, players, folded, allIn, cpi, budget);
    ScanStops(order, players, folded, allIn, cpi, budget);
    if r.Exhausted? && budget >= |order| {
      var n := |order|;
      forall i | 0 <= i < n ensures CanAct(players, folded, allIn, order[i]) == Some(false) {
        var k := if i >= cpi then i - cpi else i - cpi + n;
        AdvanceWraps(cpi, k, n);
        ScanExhaustedSkipped(order, players, folded, allIn, cpi, budget, k);
      }
    }
  }

  lemma {:induction false} ScanStops(order: seq<UserId>, players: seq<Player>, folded: set<UserId>,
                                     allIn: set<UserId>, cpi: int, budget: nat)
    requires 0 <= cpi < |order|
    ensures var r := Scan(order, players, folded, allIn, cpi, budget);
      (r.Found? ==> CanAct(players, folded, allIn, order[r.index]) == Some(true)) &&
      (r.ScanCrash? ==> CanAct(players, folded, allIn, order[r.index]).None?)
    decreases budget
  {
    if budget > 0 && CanAct(players, folded, allIn, order[cpi]) == Some(false) {
      ScanStops(order, players, folded, allIn, (cpi + 1) % |order|, budget - 1);
    }
  }

  // ------------------------------------------------------------ showdown

  /** Whether no card in the list is `undefined`. */
  predicate AllDealt(cards: seq<Dealt>) {
    forall i :: 0 <= i < |cards| ==> cards[i].Some?
  }

  function Unwrap(cards: seq<Dealt>): (r: seq<Card>)
    requires AllDealt(cards)
    ensures |r| == |cards| && forall i :: 0 <= i < |cards| ==> Some(r[i]) == cards[i]
  {
    seq(|cards|, i requires 0 <= i < |cards| => cards[i].value)
  }

  /**
    The score `showdown` computes for a player: `evaluateHand` of the hole
    cards and the board. `None` is a crash (no hole cards, or an `undefined`
    card reaching `cardValue`); `Some(None)` a score that never wins.
  */
  function PlayerScore(holeCards: map<UserId, seq<Dealt>>, board: seq<Dealt>, uid: UserId): Option<Option<int>> {
    if uid !in holeCards then None
    else
      var cards := holeCards[uid] + board;
      if !AllDealt(cards) then None else Some(EvaluateHand(Unwrap(cards)))
  }

  /**
    The `bestScore`/`winner` pair after the showdown loop has looked at
    `scores`: start at (-1, none) and take a score only when strictly greater.
  */
  function Leader(scores: seq<Option<int>>): (r: (int, int))
    ensures -1 <= r.1 < |scores|
    ensures r.1 == -1 <==> forall j :: 0 <= j < |scores| ==> scores[j].None? || scores[j].value <= -1
    ensures r.1 == -1 ==> r.0 == -1
    ensures r.1 >= 0 ==> scores[r.1] == Some(r.0) && r.0 > -1
    ensures forall j :: 0 <= j < |scores| && scores[j].Some? ==> scores[j].value <= r.0
    ensures r.1 >= 0 ==> forall j :: 0 <= j < r.1 && scores[j].Some? ==> scores[j].value < r.0
  {
    if scores == [] then (-1, -1)
    else
      var init := scores[..|scores| - 1];
      var prev := Leader(init);
      var s := scores[|scores| - 1];
      assert forall j :: 0 <= j < |init| ==> scores[j] == init[j];
      if s.Some? && s.value > prev.0 then (s.value, |scores| - 1) else prev
  }
}
