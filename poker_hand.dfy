/**
  One hand of the poker table (the object `setupHand` returns in
  src/commands/poker.js) and the specification of the steps that change it:
  an action moving chips, a street being dealt, and the deal itself. The
  class `Hand` holds the fields the source mutates; `HandState` is their
  value, which the specification functions below transform.
*/
module PokerHand {
  import opened Wrappers
  import opened JsNum
  import opened Shuffle
  import opened Db
  import opened PokerCards
  import opened PokerRules

  datatype HandState = HandState(
    phase: Phase,
    deck: seq<Card>,
    board: seq<Dealt>,
    holeCards: map<UserId, seq<Dealt>>,
    pot: int,
    bets: map<UserId, int>,
    currentBets: map<UserId, int>,
    actionOrder: seq<UserId>,
    currentPlayerIndex: int,
    minRaise: int,
    folded: set<UserId>,
    allIn: set<UserId>,
    moves: map<UserId, Action>)

  /**
    What every reachable hand satisfies: the order is a non-empty list of
    distinct ids with the turn inside it, only players in the order have
    bets, the pot is the sum of the bets, and the board has as many cards as
    the street calls for.
  */
  ghost predicate HandOk(h: HandState) {
    && |h.actionOrder| > 0 && Distinct(h.actionOrder)
    && 0 <= h.currentPlayerIndex < |h.actionOrder|
    && (forall u :: u in h.bets ==> u in h.actionOrder)
    && (forall u :: u in h.currentBets ==> u in h.actionOrder)
    && h.pot == SumBets(h.actionOrder, h.bets)
    && |h.board| == BoardSize(h.phase)
  }

  // --------------------------------------------------------------- popping

  /** The card the (k+1)-th `pop()` returns. */
  function NthFromTop(deck: seq<Card>, k: nat): Dealt {
    if k < |deck| then Some(deck[|deck| - 1 - k]) else None
  }

  /** The deck after k pops (popping an empty deck leaves it empty). */
  function AfterPops(deck: seq<Card>, k: nat): (d: seq<Card>)
    ensures |d| == Max(0, |deck| - k)
  {
    if k <= |deck| then deck[..|deck| - k] else []
  }

  /** The k cards k pops return, in order. */
  function Pops(deck: seq<Card>, k: nat): (r: seq<Dealt>)
    ensures |r| == k && forall i :: 0 <= i < k ==> r[i] == NthFromTop(deck, i)
  {
    seq(k, i requires 0 <= i < k => NthFromTop(deck, i))
  }

  lemma PopsCompose(deck: seq<Card>, k: nat, j: nat)
    ensures AfterPops(AfterPops(deck, k), j) == AfterPops(deck, k + j)
    ensures NthFromTop(AfterPops(deck, k), j) == NthFromTop(deck, k + j)
  {
  }

  // ------------------------------------------------------------ an action

  /** x chips from uid into the pot: `currentBets`, `bets` and `pot` all grow by x. */
  function PutIn(h: HandState, uid: UserId, x: int): HandState {
    h.(currentBets := h.currentBets[uid := BetOf(h.currentBets, uid) + x],
       bets := h.bets[uid := BetOf(h.bets, uid) + x],
       pot := h.pot + x)
  }

  /** Every action is recorded as the player's move, and the turn passes to the next seat. */
  function Pass(h: HandState, uid: UserId, action: Action): HandState
    requires |h.actionOrder| > 0
  {
    h.(moves := h.moves[uid := action],
       currentPlayerIndex := (h.currentPlayerIndex + 1) % |h.actionOrder|)
  }

  /**
    The hand after `handlePlayerAction(uid, action, amount)` by a player
    holding `stack`, when the largest street bet is `maxBet`: the move is
    recorded and the turn passes on; a fold marks the player folded; a call
    puts in what is owed, capped by the stack; a raise puts in `amount`,
    sets `minRaise` and leaves only the raiser's move; an all-in puts in the
    stack and, when that tops `maxBet`, leaves only its own move.
  */
  function Act(h: HandState, uid: UserId, stack: int, action: Action, amount: int, maxBet: int): HandState
    requires |h.actionOrder| > 0
  {
    var cb := BetOf(h.currentBets, uid);
    var h1 := Pass(h, uid, action);
    match action
    case Fold => h1.(folded := h.folded + {uid})
    case Check => h1
    case Call =>
      var toCall := Min(maxBet - cb, stack);
      if toCall <= 0 then h1
      else PutIn(h1, uid, toCall).(allIn := if stack - toCall == 0 then h.allIn + {uid} else h.allIn)
    case Raise =>
      PutIn(h1, uid, amount).(
        minRaise := amount - (maxBet - cb),
        allIn := if stack - amount == 0 then h.allIn + {uid} else h.allIn,
        moves := map[uid := Raise])
    case AllIn =>
      PutIn(h1, uid, stack).(
        allIn := h.allIn + {uid},
        moves := if cb + stack > maxBet then map[uid := AllIn] else h1.moves)
  }

  /**
    Chip accounting of an action: the amount that leaves the stack is the
    amount the pot, the player's `bets` entry and (when written) their
    `currentBets` entry grow by, so `pot == sum(bets)` survives and the
    player's stack + bets is unchanged.
  */
  lemma ActConservesChips(h: HandState, uid: UserId, stack: int, action: Action, amount: int, maxBet: int)
    requires HandOk(h) && uid in h.actionOrder
    ensures var x := Moved(action, stack, BetOf(h.currentBets, uid), maxBet, amount);
      var h' := Act(h, uid, stack, action, amount, maxBet);
      && HandOk(h')
      && h'.pot == h.pot + x
      && (stack - x) + BetOf(h'.bets, uid) == stack + BetOf(h.bets, uid)
      && (forall v :: v != uid ==> BetOf(h'.bets, v) == BetOf(h.bets, v))
  {
    var cb := BetOf(h.currentBets, uid);
    var h1 := Pass(h, uid, action);
    PassKeepsOk(h, uid, action);
    match action {
      case Fold =>
      case Check =>
      case Call =>
        var toCall := Min(maxBet - cb, stack);
        if toCall > 0 {
          PutInKeepsOk(h1, uid, toCall);
        }
      case Raise =>
        PutInKeepsOk(h1, uid, amount);
      case AllIn =>
        PutInKeepsOk(h1, uid, stack);
    }
  }

  /** Passing the turn keeps the seat index inside the action order. */
  lemma PassKeepsOk(h: HandState, uid: UserId, action: Action)
    requires HandOk(h)
    ensures HandOk(Pass(h, uid, action))
  {
    ModBelowTwice(h.currentPlayerIndex + 1, |h.actionOrder|);
  }

  /** Putting chips in keeps `pot == sum(bets)` and touches only the player's own bets. */
  lemma PutInKeepsOk(h: HandState, uid: UserId, x: int)
    requires HandOk(h) && uid in h.actionOrder
    ensures var h' := PutIn(h, uid, x);
      && HandOk(h') && h'.pot == h.pot + x
      && BetOf(h'.bets, uid) == BetOf(h.bets, uid) + x
      && (forall v :: v != uid ==> BetOf(h'.bets, v) == BetOf(h.bets, v))
  {
    SumBetsAdd(h.actionOrder, h.bets, uid, x);
  }

  /**
    The bookkeeping rules of an action: fold only marks the player folded,
    check moves no chips, every action records a move, a raise leaves only
    the raiser's move and sets `minRaise` to the raise over the call.
  */
  lemma ActBookkeeping(h: HandState, uid: UserId, stack: int, action: Action, amount: int, maxBet: int)
    requires |h.actionOrder| > 0
    ensures var h' := Act(h, uid, stack, action, amount, maxBet);
      var cb := BetOf(h.currentBets, uid);
      && uid in h'.moves && h'.moves[uid] == action
      && (action == Fold ==>
            h'.folded == h.folded + {uid} && h'.pot == h.pot && h'.bets == h.bets &&
            h'.currentBets == h.currentBets && h'.allIn == h.allIn)
      && (action == Check ==>
            h'.folded == h.folded && h'.pot == h.pot && h'.bets == h.bets &&
            h'.currentBets == h.currentBets && h'.allIn == h.allIn)
      && (action == Raise ==>
            h'.moves == map[uid := Raise] && h'.minRaise == amount - (maxBet - cb) &&
            h'.currentBets[uid] == cb + amount)
      && (action == AllIn ==>
            uid in h'.allIn && BetOf(h'.currentBets, uid) == cb + stack &&
            (h'.moves == map[uid := AllIn] <==> cb + stack > maxBet || h.moves - {uid} == map[]))
      && (action != Raise && action != AllIn ==> h'.moves == h.moves[uid := action])
  {
    if action == AllIn {
      if h.moves - {uid} == map[] {
        assert h.moves[uid := AllIn] == map[uid := AllIn];
      }
      if h.moves[uid := AllIn] == map[uid := AllIn] {
        assert h.moves - {uid} == map[uid := AllIn] - {uid} == map[];
      }
    }
  }

  /**
    A call by a player with chips never drives the stack below zero, and the
    player is marked all-in by it exactly when it uses up the stack.
  */
  lemma CallAllInExactlyWhenEmptied(h: HandState, uid: UserId, stack: int, maxBet: int)
    requires |h.actionOrder| > 0 && stack > 0 && uid !in h.allIn
    ensures var x := Moved(Call, stack, BetOf(h.currentBets, uid), maxBet, 0);
      var h' := Act(h, uid, stack, Call, 0, maxBet);
      stack - x >= 0 && (uid in h'.allIn <==> stack - x == 0)
  {
    CallIsCapped(stack, BetOf(h.currentBets, uid), maxBet);
  }

  // ------------------------------------------------------------- a street

  function NextPhase(p: Phase): Phase
    requires p != River
  {
    match p
    case Preflop => Flop
    case Flop => Turn
    case Turn => River
  }

  /** Cards `completeBettingRound` pops for the street after p: 3 for the flop, then 1. */
  function StreetCards(p: Phase): nat
    requires p != River
  {
    if p == Preflop then 3 else 1
  }

  /**
    The hand after `completeBettingRound` deals the next street: the phase
    moves one step, the board grows by the popped cards, and the street
    bets, the turn and the moves are reset.
  */
  function DealStreet(h: HandState): HandState
    requires h.phase != River
  {
    var k := StreetCards(h.phase);
    h.(
      phase := NextPhase(h.phase),
      board := h.board + Pops(h.deck, k),
      deck := AfterPops(h.deck, k),
      currentBets := map[],
      currentPlayerIndex := 0,
      moves := map[])
  }

  /**
    Streets only move forward, preflop, flop, turn, river, each one rank
    further, the board reaching 3, 4 then 5 cards, and no chip moves.
  */
  lemma DealStreetAdvances(h: HandState)
    requires HandOk(h) && h.phase != River
    ensures var h' := DealStreet(h);
      && HandOk(h')
      && PhaseRank(h'.phase) == PhaseRank(h.phase) + 1
      && |h'.board| == BoardSize(h'.phase) && h'.board[..|h.board|] == h.board
      && h'.pot == h.pot && h'.bets == h.bets && h'.folded == h.folded && h'.allIn == h.allIn
      && h'.currentBets == map[] && h'.moves == map[] && h'.currentPlayerIndex == 0
  {
    var h' := DealStreet(h);
    assert h'.board[..|h.board|] == h.board;
  }

  // --------------------------------------------------------------- dealing

  /**
    `holeCards` after the deal loop of `startHand` over `ids`: the i-th id
    is given the (2i)-th and (2i+1)-th pops (a later deal to the same id
    overwrites an earlier one).
  */
  function HoleCardsFor(deck: seq<Card>, ids: seq<UserId>): map<UserId, seq<Dealt>> {
    if ids == [] then map[]
    else
      var k := |ids| - 1;
      HoleCardsFor(deck, ids[..k])[ids[k] := [NthFromTop(deck, 2 * k), NthFromTop(deck, 2 * k + 1)]]
  }

  /** Each id holds its own two pops, and nobody else holds cards. */
  ghost predicate HoleCardsDealt(holeCards: map<UserId, seq<Dealt>>, deck: seq<Card>, ids: seq<UserId>) {
    && (forall u :: u in holeCards <==> u in ids)
    && (forall i :: 0 <= i < |ids| ==>
          holeCards[ids[i]] == [NthFromTop(deck, 2 * i), NthFromTop(deck, 2 * i + 1)])
  }

  /** For distinct ids the deal gives each id its own pair of pops. */
  lemma {:induction false} HoleCardsForDeals(deck: seq<Card>, ids: seq<UserId>)
    requires Distinct(ids)
    ensures HoleCardsDealt(HoleCardsFor(deck, ids), deck, ids)
    decreases |ids|
  {
    if ids != [] {
      var k := |ids| - 1;
      assert Distinct(ids[..k]);
      HoleCardsForDeals(deck, ids[..k]);
      forall u ensures u in HoleCardsFor(deck, ids) <==> u in ids {
        assert ids == ids[..k] + [ids[k]];
      }
    }
  }

  /**
    With at least two cards per player left in a deck without repeats, every
    hole card is a real card, and no card is dealt twice.
  */
  lemma DealtHoleCardsDefined(holeCards: map<UserId, seq<Dealt>>, deck: seq<Card>, ids: seq<UserId>)
    requires HoleCardsDealt(holeCards, deck, ids) && Distinct(deck) && 2 * |ids| <= |deck|
    ensures forall i :: 0 <= i < |ids| ==>
      holeCards[ids[i]] == [Some(deck[|deck| - 1 - 2 * i]), Some(deck[|deck| - 2 - 2 * i])]
    ensures forall i, j :: 0 <= i < j < 2 * |ids| ==> NthFromTop(deck, i) != NthFromTop(deck, j)
  {
    forall i | 0 <= i < |ids|
      ensures holeCards[ids[i]] == [Some(deck[|deck| - 1 - 2 * i]), Some(deck[|deck| - 2 - 2 * i])]
    {
      assert NthFromTop(deck, 2 * i) == Some(deck[|deck| - 1 - 2 * i]);
      assert NthFromTop(deck, 2 * i + 1) == Some(deck[|deck| - 2 - 2 * i]);
    }
  }

  // ------------------------------------------------------------ the class

  class Hand {
    var phase: Phase
    var deck: seq<Card>
    var board: seq<Dealt>
    var holeCards: map<UserId, seq<Dealt>>
    var pot: int
    var bets: map<UserId, int>
    var currentBets: map<UserId, int>
    var actionOrder: seq<UserId>
    var currentPlayerIndex: int
    var minRaise: int
    var folded: set<UserId>
    var allIn: set<UserId>
    var moves: map<UserId, Action>

    function State(): HandState
      reads this
    {
      HandState(phase, deck, board, holeCards, pot, bets, currentBets, actionOrder,
                currentPlayerIndex, minRaise, folded, allIn, moves)
    }

    ghost predicate Valid()
      reads this
    {
      HandOk(State())
    }

    /**
      `setupHand`: the action order is the rotation after the dealer, the
      deck a fresh shuffled deck, and everything else starts empty with
      `minRaise` at the big blind.
    */
    constructor (players: seq<Player>, dealerPos: int, picks: seq<nat>)
      requires 0 <= dealerPos < |players| && ValidPicks(picks, 52)
      ensures phase == Preflop && board == [] && holeCards == map[] && pot == 0
      ensures bets == map[] && currentBets == map[] && moves == map[]
      ensures actionOrder == Rotation(players, dealerPos) && currentPlayerIndex == 0
      ensures minRaise == BIG_BLIND && folded == {} && allIn == {}
      ensures |deck| == 52 && multiset(deck) == multiset(OrderedDeck()) && Distinct(deck)
      ensures Distinct(Ids(players)) ==> Valid()
    {
      var order := SetupOrder(players, dealerPos);
      RotationIsPermutation(players, dealerPos);
      SumBetsEmpty(order);
      var d := CreateDeck(picks);
      phase := Preflop;
      deck := d;
      board := [];
      holeCards := map[];
      pot := 0;
      bets := map[];
      currentBets := map[];
      actionOrder := order;
      currentPlayerIndex := 0;
      minRaise := BIG_BLIND;
      folded := {};
      allIn := {};
      moves := map[];
    }

    /** `deck.pop()`. */
    method Pop() returns (c: Dealt)
      modifies this`deck
      ensures c == NthFromTop(old(deck), 0) && deck == AfterPops(old(deck), 1)
    {
      if deck == [] {
        c := None;
      } else {
        c := Some(deck[|deck| - 1]);
        deck := deck[..|deck| - 1];
      }
    }

    /** The hole-card loop of `startHand`: two pops per player, in seat order. */
    method DealHoleCards(ids: seq<UserId>)
      requires holeCards == map[]
      modifies this`deck, this`holeCards
      ensures deck == AfterPops(old(deck), 2 * |ids|)
      ensures holeCards == HoleCardsFor(old(deck), ids)
    {
      ghost var d0 := deck;
      var i := 0;
      while i < |ids|
        invariant 0 <= i <= |ids|
        invariant deck == AfterPops(d0, 2 * i)
        invariant holeCards == HoleCardsFor(d0, ids[..i])
      {
        PopsCompose(d0, 2 * i, 0);
        PopsCompose(d0, 2 * i, 1);
        var c1 := Pop();
        PopsCompose(d0, 2 * i + 1, 0);
        PopsCompose(d0, 2 * i + 1, 1);
        var c2 := Pop();
        holeCards := holeCards[ids[i] := [c1, c2]];
        assert ids[..i + 1][..i] == ids[..i];
        i := i + 1;
      }
      assert ids[..|ids|] == ids;
    }

    /**
      The blinds of `startHand`: each blind is that seat's street bet and
      hand bet, and the pot holds exactly the two.
    */
    method PostBlinds(sb: UserId, bb: UserId)
      modifies this`currentBets, this`bets, this`pot
      ensures State() == old(State()).(
        currentBets := old(currentBets)[sb := SMALL_BLIND][bb := BIG_BLIND],
        bets := old(bets)[sb := SMALL_BLIND][bb := BIG_BLIND],
        pot := SMALL_BLIND + BIG_BLIND)
    {
      currentBets := currentBets[sb := SMALL_BLIND][bb := BIG_BLIND];
      bets := bets[sb := SMALL_BLIND][bb := BIG_BLIND];
      pot := SMALL_BLIND + BIG_BLIND;
    }

    /**
      The search loop of `advanceTurn`: from the current turn, at most one
      step per seated player, to the first id that has not folded, is not
      all in and has chips; the turn index is left where the search stopped.
    */
    method NextToAct(players: seq<Player>) returns (r: ScanResult)
      requires 0 <= currentPlayerIndex < |actionOrder|
      modifies this`currentPlayerIndex
      ensures r == Scan(actionOrder, players, folded, allIn, old(currentPlayerIndex), |players|)
      ensures State() == old(State()).(currentPlayerIndex := r.index)
    {
      ghost var target := Scan(actionOrder, players, folded, allIn, currentPlayerIndex, |players|);
      var attempts := 0;
      while attempts < |players|
        invariant 0 <= attempts <= |players|
        invariant 0 <= currentPlayerIndex < |actionOrder|
        invariant Scan(actionOrder, players, folded, allIn, currentPlayerIndex, |players| - attempts) == target
      {
        var uid := actionOrder[currentPlayerIndex];
        if uid !in folded && uid !in allIn {
          var player := FindPlayer(players, uid);
          if player.None? {
            return ScanCrash(currentPlayerIndex);
          }
          if player.value.stack > 0 {
            return Found(currentPlayerIndex);
          }
        }
        currentPlayerIndex := (currentPlayerIndex + 1) % |actionOrder|;
        attempts := attempts + 1;
      }
      r := Exhausted(currentPlayerIndex);
    }

    /** `Math.max(...Object.values(currentBets))` (0 for no bets), read through the order. */
    method MaxCurrentBet() returns (m: int)
      requires Valid()
      ensures m == MaxBet(currentBets)
    {
      m := 0;
      var seen := false;
      var i := 0;
      while i < |actionOrder|
        invariant 0 <= i <= |actionOrder|
        invariant seen <==> exists j :: 0 <= j < i && actionOrder[j] in currentBets
        invariant seen ==> m in currentBets.Values
        invariant forall j :: 0 <= j < i && actionOrder[j] in currentBets ==> currentBets[actionOrder[j]] <= m
        invariant !seen ==> m == 0
      {
        var u := actionOrder[i];
        if u in currentBets && (!seen || currentBets[u] > m) {
          m := currentBets[u];
          seen := true;
        }
        i := i + 1;
      }
      forall u | u in currentBets ensures currentBets[u] <= m {
        var j :| 0 <= j < |actionOrder| && actionOrder[j] == u;
      }
      if currentBets != map[] {
        var u :| u in currentBets;
        var j :| 0 <= j < |actionOrder| && actionOrder[j] == u;
      }
      MaxBetUnique(currentBets, m);
    }

    /** The chip and bookkeeping part of `handlePlayerAction`, once the player is known. */
    method Record(uid: UserId, stack: int, action: Action, amount: int) returns (moved: int)
      requires Valid() && uid in actionOrder
      modifies this
      ensures moved == Moved(action, stack, BetOf(old(currentBets), uid), MaxBet(old(currentBets)), amount)
      ensures State() == Act(old(State()), uid, stack, action, amount, MaxBet(old(currentBets)))
      ensures Valid()
    {
      var maxBet := MaxCurrentBet();
      ActConservesChips(State(), uid, stack, action, amount, maxBet);
      moved := Moved(action, stack, BetOf(currentBets, uid), maxBet, amount);
      match action {
        case Fold => RecordFold(uid, stack, amount, maxBet);
        case Check => RecordCheck(uid, stack, amount, maxBet);
        case Call => RecordCall(uid, stack, amount, maxBet);
        case Raise => RecordRaise(uid, stack, amount, maxBet);
        case AllIn => RecordAllIn(uid, stack, amount, maxBet);
      }
    }

    /** Records the move and passes the turn on, as every action does. */
    method Moves(uid: UserId, action: Action)
      requires |actionOrder| > 0
      modifies this`moves, this`currentPlayerIndex
      ensures State() == Pass(old(State()), uid, action)
    {
      moves := moves[uid := action];
      currentPlayerIndex := (currentPlayerIndex + 1) % |actionOrder|;
    }

    /** x chips of uid into the street bet, the hand bet and the pot. */
    method PutChips(uid: UserId, x: int)
      modifies this`currentBets, this`bets, this`pot
      ensures State() == PutIn(old(State()), uid, x)
    {
      currentBets := currentBets[uid := BetOf(currentBets, uid) + x];
      bets := bets[uid := BetOf(bets, uid) + x];
      pot := pot + x;
    }

    method RecordFold(uid: UserId, stack: int, amount: int, maxBet: int)
      requires |actionOrder| > 0
      modifies this
      ensures State() == Act(old(State()), uid, stack, Fold, amount, maxBet)
    {
      Moves(uid, Fold);
      folded := folded + {uid};
    }

    method RecordCheck(uid: UserId, stack: int, amount: int, maxBet: int)
      requires |actionOrder| > 0
      modifies this
      ensures State() == Act(old(State()), uid, stack, Check, amount, maxBet)
    {
      Moves(uid, Check);
    }

    method RecordCall(uid: UserId, stack: int, amount: int, maxBet: int)
      requires |actionOrder| > 0
      modifies this
      ensures State() == Act(old(State()), uid, stack, Call, amount, maxBet)
    {
      var toCall := Min(maxBet - BetOf(currentBets, uid), stack);
      Moves(uid, Call);
      if toCall > 0 {
        PutChips(uid, toCall);
        if stack - toCall == 0 {
          allIn := allIn + {uid};
        }
      }
    }

    method RecordRaise(uid: UserId, stack: int, amount: int, maxBet: int)
      requires |actionOrder| > 0
      modifies this
      ensures State() == Act(old(State()), uid, stack, Raise, amount, maxBet)
    {
      var cb := BetOf(currentBets, uid);
      Moves(uid, Raise);
      PutChips(uid, amount);
      minRaise := amount - (maxBet - cb);
      if stack - amount == 0 {
        allIn := allIn + {uid};
      }
      moves := map[uid := Raise];
    }

    method RecordAllIn(uid: UserId, stack: int, amount: int, maxBet: int)
      requires |actionOrder| > 0
      modifies this
      ensures State() == Act(old(State()), uid, stack, AllIn, amount, maxBet)
    {
      var cb := BetOf(currentBets, uid);
      Moves(uid, AllIn);
      PutChips(uid, stack);
      allIn := allIn + {uid};
      if cb + stack > maxBet {
        moves := map[uid := AllIn];
      }
    }

    /** Pops k cards from the top of the deck onto the board, in order. */
    method DealBoard(k: nat)
      requires k == 1 || k == 3
      modifies this`deck, this`board
      ensures State() == old(State()).(board := old(board) + Pops(old(deck), k), deck := AfterPops(old(deck), k))
    {
      ghost var d0 := deck;
      var c1 := Pop();
      if k == 1 {
        assert Pops(d0, 1) == [c1];
        board := board + [c1];
      } else {
        var c2 := Pop();
        var c3 := Pop();
        PopsCompose(d0, 1, 0);
        PopsCompose(d0, 2, 0);
        PopsCompose(d0, 1, 1);
        PopsCompose(d0, 2, 1);
        assert Pops(d0, 3) == [c1, c2, c3];
        board := board + [c1, c2, c3];
      }
    }

    /** A new betting round: no street bets, no moves, the turn back at seat 0 of the order. */
    method ResetRound()
      modifies this`currentBets, this`currentPlayerIndex, this`moves
      ensures State() == old(State()).(currentBets := map[], currentPlayerIndex := 0, moves := map[])
    {
      currentBets := map[];
      currentPlayerIndex := 0;
      moves := map[];
    }

    /** The street part of `completeBettingRound`: pop the street's cards and reset the round. */
    method NextStreet()
      requires Valid() && phase != River
      modifies this
      ensures State() == DealStreet(old(State()))
      ensures Valid()
    {
      DealStreetAdvances(State());
      DealBoard(StreetCards(phase));
      phase := NextPhase(phase);
      ResetRound();
    }
  }
}
