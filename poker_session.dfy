/**
  The session object of src/commands/poker.js and the module's own state.
  `Session` holds the fields `blankSession` creates; its methods are the
  game-flow functions of the source, which change the session, its current
  hand and the chip ledger in place, each proved to leave exactly the state
  the matching function of `PokerFlow` computes. `Poker` holds the
  module-level `pokerSession` and the ledger and runs the commands,
  proved against `PokerLobby`.
*/
module PokerSession {
  import opened Wrappers
  import opened JsNum
  import opened Shuffle
  import opened Db
  import opened PokerCards
  import opened PokerRules
  import opened PokerHand
  import opened PokerFlow
  import opened PokerLobby

  /**
    The scoring loop of `showdown`: it keeps the first strictly best score
    among the unfolded players. -1 when a score crashes the loop or nobody
    scores above -1.
  */
  method FindWinner(t: Table) returns (winner: int)
    requires t.hand.Some?
    ensures winner == WinnerIndex(t)
  {
    WinnerIndexLoop(t);
    winner := ScoreLoop(t.hand.value.holeCards, t.hand.value.board, Unfolded(t), Scores(t));
  }

  /** The loop itself, over the players' scores `scores`. */
  method ScoreLoop(holeCards: map<UserId, seq<Dealt>>, board: seq<Dealt>, active: seq<Player>,
                   ghost scores: seq<Option<Option<int>>>) returns (winner: int)
    requires |scores| == |active|
    requires forall i :: 0 <= i < |active| ==> scores[i] == PlayerScore(holeCards, board, active[i].userId)
    ensures winner == if exists i :: 0 <= i < |scores| && scores[i].None? then -1
                      else Leader(Values(scores, |scores|)).1
  {
    var best := -1;
    winner := -1;
    var i := 0;
    while i < |active|
      invariant 0 <= i <= |active|
      invariant forall j :: 0 <= j < i ==> scores[j].Some?
      invariant (best, winner) == Leader(Values(scores, i))
    {
      var score := PlayerScore(holeCards, board, active[i].userId);
      assert score == scores[i];
      if score.None? {
        assert exists j :: 0 <= j < |scores| && scores[j].None?;
        return -1;
      }
      LeaderStep(scores, i);
      if score.value.Some? && score.value.value > best {
        best := score.value.value;
        winner := i;
      }
      i := i + 1;
    }
    assert !exists j :: 0 <= j < |scores| && scores[j].None?;
  }

  /**
    `setupHand` for dealer seat `dealer` followed by the blinds and the
    hole-card loop of `startHand`; `deck` is the freshly shuffled deck.
  */
  method OpenHand(players: seq<Player>, dealer: int, sb: UserId, bb: UserId, picks: seq<nat>) returns (h: Hand, deck: seq<Card>)
    requires 0 <= dealer < |players| && ValidPicks(picks, 52)
    ensures fresh(h) && h.State() == Opening(players, dealer, deck, sb, bb)
    ensures |deck| == 52 && multiset(deck) == multiset(OrderedDeck()) && Distinct(deck)
  {
    h := new Hand(players, dealer, picks);
    deck := h.deck;
    h.PostBlinds(sb, bb);
    h.DealHoleCards(Ids(players));
  }

  class Session {
    var status: Status
    var threadId: Option<string>
    var players: seq<Player>
    var waitList: seq<UserId>
    var leaveList: seq<UserId>
    var dealerPos: int
    var handNum: int
    var currentHand: Hand?

    /** The session as a value. */
    function Snap(): Table
      reads this, currentHand
    {
      Table(status, players, waitList, leaveList, dealerPos, handNum,
            if currentHand == null then None else Some(currentHand.State()))
    }

    ghost predicate Valid()
      reads this, currentHand
    {
      TableOk(Snap())
    }

    /** `blankSession`. */
    constructor ()
      ensures Snap() == Blank() && threadId == None
    {
      status := Waiting;
      threadId := None;
      players := [];
      waitList := [];
      leaveList := [];
      dealerPos := 0;
      handNum := 0;
      currentHand := null;
    }

    /** `endGameAndSettle`: close the table and credit everybody seated `stack - buyIn`. */
    method EndGameAndSettle(ledger: Ledger)
      modifies this`status, ledger
      ensures Step(Snap(), ledger.balances, GameOver) == EndGame(old(Snap()), old(ledger.balances))
    {
      status := Ended;
      ghost var b0 := ledger.balances;
      var i := 0;
      while i < |players|
        invariant 0 <= i <= |players|
        invariant status == Ended
        invariant ledger.balances == SettleAll(b0, players[..i])
      {
        var p := players[i];
        var credited := ledger.AddBalance(p.userId, p.stack - p.buyIn);
        assert players[..i + 1][..i] == players[..i];
        i := i + 1;
      }
      assert players[..|players|] == players;
    }

    /** `endHand`: the broke leave; fewer than two left end the game, otherwise the next hand is due. */
    method EndHand(ledger: Ledger) returns (progress: Progress)
      modifies this`players, this`status, ledger
      ensures Step(Snap(), ledger.balances, progress) == PokerFlow.EndHand(old(Snap()), old(ledger.balances))
    {
      players := WithChips(players);
      if |players| < MIN_PLAYERS {
        EndGameAndSettle(ledger);
        progress := GameOver;
      } else {
        progress := NextHandScheduled;
      }
    }

    /** `showdown`: the winner's stack takes the pot (the pot is not emptied), then `endHand`. */
    method Showdown(ledger: Ledger) returns (progress: Progress)
      requires currentHand != null
      modifies this`players, this`status, ledger
      ensures Step(Snap(), ledger.balances, progress) == PokerFlow.Showdown(old(Snap()), old(ledger.balances))
    {
      var winner := FindWinner(Snap());
      if winner < 0 {
        progress := Crashed;
        return;
      }
      var active := Unfolded(Snap());
      players := AddToStack(players, active[winner].userId, currentHand.pot);
      progress := EndHand(ledger);
    }

    /**
      `advanceTurn`: a finished round is completed; otherwise the turn moves
      along the action order, at most once per player, to the first player
      who can act, who is prompted.
    */
    method AdvanceTurn(ledger: Ledger) returns (progress: Progress)
      requires currentHand != null && currentHand.Valid()
      modifies this`players, this`status, ledger, currentHand
      ensures Step(Snap(), ledger.balances, progress) == PokerFlow.AdvanceTurn(old(Snap()), old(ledger.balances))
      decreases 3 - PhaseRank(currentHand.phase), 1
    {
      var h := currentHand;
      if IsBettingRoundComplete(players, h.folded, h.allIn, h.moves, h.currentBets) {
        progress := CompleteBettingRound(ledger);
        return;
      }
      var r := h.NextToAct(players);
      match r
      case Found(i) =>
        progress := Prompted(h.actionOrder[i]);
      case ScanCrash(_) =>
        progress := Crashed;
      case Exhausted(_) =>
        progress := CompleteBettingRound(ledger);
    }

    /**
      `completeBettingRound`: one unfolded player left ends the hand, the
      river is followed by the showdown, any other street deals the next
      one and the turn advances.
    */
    method CompleteBettingRound(ledger: Ledger) returns (progress: Progress)
      requires currentHand != null && currentHand.Valid()
      modifies this`players, this`status, ledger, currentHand
      ensures Step(Snap(), ledger.balances, progress) == PokerFlow.CompleteRound(old(Snap()), old(ledger.balances))
      decreases 3 - PhaseRank(currentHand.phase), 0
    {
      var active := Unfolded(Snap());
      if |active| == 1 {
        progress := EndHand(ledger);
        return;
      }
      if currentHand.phase == River {
        progress := Showdown(ledger);
        return;
      }
      DealStreetAdvances(currentHand.State());
      currentHand.NextStreet();
      progress := AdvanceTurn(ledger);
    }

    /**
      `handlePlayerAction`: record the move (a user without a seat crashes
      right after), move the chips and advance the turn.
    */
    method HandlePlayerAction(ledger: Ledger, uid: UserId, action: Action, amount: int) returns (progress: Progress)
      requires currentHand != null && currentHand.Valid() && uid in currentHand.actionOrder
      modifies this`players, this`status, ledger, currentHand
      ensures Step(Snap(), ledger.balances, progress) ==
        PlayerAction(old(Snap()), old(ledger.balances), uid, action, amount)
    {
      ghost var t, b := Snap(), ledger.balances;
      var player := FindPlayer(players, uid);
      if player.None? {
        currentHand.moves := currentHand.moves[uid := action];
        progress := Crashed;
        return;
      }
      var moved := currentHand.Record(uid, player.value.stack, action, amount);
      players := TakeFromStack(players, uid, moved);
      progress := AdvanceTurn(ledger);
    }

    /** The seating loop of `startHand`: every waiting user who can afford it sits down. */
    method SeatWaiting(ledger: Ledger)
      modifies this`players, this`waitList
      ensures players == SeatAll(old(players), old(waitList), ledger.balances) && waitList == []
    {
      ghost var p0 := players;
      var i := 0;
      while i < |waitList|
        invariant 0 <= i <= |waitList| && waitList == old(waitList)
        invariant players == SeatAll(p0, waitList[..i], ledger.balances)
      {
        var uid := waitList[i];
        var balance := ledger.Balance(uid);
        if balance >= MIN_BALANCE_REQUIRED {
          players := players + [Player(uid, "Player" + NatToString(|players|), balance, |players|, balance)];
        }
        assert waitList[..i + 1][..i] == waitList[..i];
        i := i + 1;
      }
      assert waitList[..|waitList|] == waitList;
      waitList := [];
    }

    /** The payout loop of `startHand`: a leaver still seated with chips is credited `stack - buyIn`. */
    method PayOutLeavers(ledger: Ledger)
      modifies ledger
      ensures ledger.balances == PayLeavers(old(ledger.balances), players, leaveList)
    {
      ghost var b0 := ledger.balances;
      var i := 0;
      while i < |leaveList|
        invariant 0 <= i <= |leaveList|
        invariant ledger.balances == PayLeavers(b0, players, leaveList[..i])
      {
        var uid := leaveList[i];
        var leaving := FindPlayer(players, uid);
        if leaving.Some? && leaving.value.stack > 0 {
          var credited := ledger.AddBalance(uid, leaving.value.stack - leaving.value.buyIn);
        }
        assert leaveList[..i + 1][..i] == leaveList[..i];
        i := i + 1;
      }
      assert leaveList[..|leaveList|] == leaveList;
    }

    /**
      The button moves on, a fresh hand is set up from a deck shuffled with
      `picks`, the blinds are taken from the two seats after the dealer and
      every player is dealt two cards. `deck` is the shuffled deck.
    */
    method PostBlinds(picks: seq<nat>) returns (deck: seq<Card>)
      requires |players| >= MIN_PLAYERS && dealerPos >= 0 && Distinct(Ids(players)) && ValidPicks(picks, 52)
      modifies this`handNum, this`dealerPos, this`players, this`currentHand
      ensures currentHand != null && fresh(currentHand)
      ensures Snap() == Blinded(old(Snap()), deck)
    {
      ghost var t := Snap();
      var n := |players|;
      var dealer := NextSeat(dealerPos, n);
      var sb := NextSeat(dealer, n);
      var bb := NextSeat(sb, n);
      var h;
      h, deck := OpenHand(players, dealer, players[sb].userId, players[bb].userId, picks);
      ghost var hs := h.State();
      handNum := handNum + 1;
      dealerPos := dealer;
      players := TakeAt(TakeAt(players, sb, SMALL_BLIND), bb, BIG_BLIND);
      currentHand := h;
      assert Blinded(t, deck) == Table(t.status, players, t.waitList, t.leaveList, dealer, handNum, Some(hs));
    }

    /** `startHand` with two or more players: blinds, cards, and the first turn. */
    method Deal(ledger: Ledger, picks: seq<nat>) returns (progress: Progress, deck: seq<Card>)
      requires |players| >= MIN_PLAYERS && dealerPos >= 0 && Distinct(Ids(players)) && ValidPicks(picks, 52)
      modifies this, ledger
      ensures Step(Snap(), ledger.balances, progress) == PokerFlow.Deal(old(Snap()), old(ledger.balances), deck)
    {
      ghost var t := Snap();
      deck := PostBlinds(picks);
      BlindsPosted(t, deck);
      progress := AdvanceTurn(ledger);
    }

    /**
      The first part of `startHand`: seat the waiting list, pay out the
      leavers and take them off the table.
    */
    method Regroup(ledger: Ledger)
      requires Valid()
      modifies this`players, this`waitList, this`leaveList, ledger
      ensures var seated := SeatAll(old(players), old(waitList), old(ledger.balances));
        && players == Staying(seated, old(leaveList))
        && ledger.balances == PayLeavers(old(ledger.balances), seated, old(leaveList))
      ensures waitList == [] && leaveList == []
      ensures Distinct(Ids(players))
    {
      SeatAllApart(players, waitList, ledger.balances);
      SeatWaiting(ledger);
      PayOutLeavers(ledger);
      players := Staying(players, leaveList);
      leaveList := [];
    }

    /**
      `startHand`: seat the waiting list, pay out and remove the leavers,
      then end the game (one player), wait (none) or deal (two or more).
    */
    method StartHand(ledger: Ledger, picks: seq<nat>) returns (progress: Progress, deck: seq<Card>)
      requires Valid() && ValidPicks(picks, 52)
      modifies this, ledger
      ensures Step(Snap(), ledger.balances, progress) == PokerFlow.StartHand(old(Snap()), old(ledger.balances), deck)
      ensures Valid()
    {
      ghost var t, b := Snap(), ledger.balances;
      Regroup(ledger);
      deck := [];
      if |players| == 1 {
        EndGameAndSettle(ledger);
        progress := GameOver;
      } else if |players| < MIN_PLAYERS {
        status := Waiting;
        progress := BackToWaiting;
      } else {
        progress, deck := Deal(ledger, picks);
      }
      StartHandOk(t, b, deck);
    }
  }

  /** The module's state: `pokerSession` (`null` when no game exists) and the chip ledger. */
  class Poker {
    var session: Session?
    var ledger: Ledger

    /** `pokerSession` as a value. */
    function Current(): Option<Table>
      reads this, session, if session == null then {} else {session.currentHand}
    {
      if session == null then None else Some(session.Snap())
    }

    ghost predicate Valid()
      reads this, session, if session == null then {} else {session.currentHand}
    {
      SessionOk(Current())
    }

    constructor (ledger: Ledger)
      ensures Current() == None && this.ledger == ledger
    {
      session := null;
      this.ledger := ledger;
    }

    /** `/poker join`. */
    method HandleJoin(uid: UserId, username: string) returns (reply: Reply)
      requires Valid()
      modifies this`session, session
      ensures Outcome(Current(), ledger.balances, reply) ==
        PokerLobby.HandleJoin(old(Current()), old(ledger.balances), uid, username)
      ensures Valid()
    {
      HandleJoinOk(Current(), ledger.balances, uid, username);
      var balance := ledger.Balance(uid);
      if balance < MIN_BALANCE_REQUIRED {
        return LowBalance(balance);
      }
      if session == null || session.status == Ended {
        session := new Session();
      }
      var s := session;
      if uid in Ids(s.players) || uid in s.waitList {
        return AlreadyIn;
      }
      if s.status == Waiting {
        if |s.players| >= MAX_PLAYERS {
          return TableFull;
        }
        s.players := s.players + [Player(uid, username, balance, |s.players|, balance)];
        reply := if |s.players| == 1 then LobbyCreated(balance) else JoinedLobby(|s.players|);
      } else {
        s.waitList := s.waitList + [uid];
        reply := JoinsNextHand;
      }
    }

    /** `/poker leave`. */
    method HandleLeave(uid: UserId) returns (reply: Reply)
      requires Valid()
      modifies session
      ensures Outcome(Current(), ledger.balances, reply) ==
        PokerLobby.HandleLeave(old(Current()), old(ledger.balances), uid)
      ensures Valid()
    {
      HandleLeaveOk(Current(), ledger.balances, uid);
      if session == null {
        return NoGameToLeave;
      }
      var s := session;
      var seated := uid in Ids(s.players);
      if !seated && uid !in s.waitList {
        return NotInGame;
      }
      if s.status == Active {
        if uid !in s.leaveList {
          s.leaveList := s.leaveList + [uid];
        }
        return LeavesAfterHand;
      }
      if seated {
        s.players := Unseat(s.players, uid);
        return LeftLobby;
      }
      s.waitList := Without(s.waitList, uid);
      reply := LeftWaitlist;
    }

    /**
      `/poker start`; `thread` is what `createThread` answered (`None`: no
      thread). The first hand is started by `Resume`, the 3 s timer.
    */
    method HandleStart(thread: Option<string>) returns (reply: Reply)
      requires Valid()
      modifies session
      ensures Outcome(Current(), ledger.balances, reply) ==
        PokerLobby.HandleStart(old(Current()), old(ledger.balances), thread.Some?)
      ensures Valid()
    {
      if session == null || session.status != Waiting {
        return NoLobby;
      }
      var s := session;
      if |s.players| < MIN_PLAYERS {
        return NeedPlayers(|s.players|);
      }
      s.threadId := thread;
      if thread.None? {
        return ThreadFailed;
      }
      s.status := Active;
      reply := GameStarted;
    }

    /** `/poker end`: settle everybody seated and drop the session. */
    method HandleEnd(isAdmin: bool) returns (reply: Reply)
      requires Valid()
      modifies this`session, session, ledger
      ensures Outcome(Current(), ledger.balances, reply) ==
        PokerLobby.HandleEnd(old(Current()), old(ledger.balances), isAdmin)
      ensures Valid()
    {
      if !isAdmin {
        return AdminsOnly;
      }
      if session == null || session.status != Active {
        return NoActiveGame;
      }
      session.EndGameAndSettle(ledger);
      session := null;
      reply := GameEnded;
    }

    /** A button press: the turn and the stake are checked, then `handlePlayerAction`. */
    method Interact(uid: UserId, customId: string) returns (reply: Reply)
      requires Valid()
      modifies this`session, session, ledger, if session == null then {} else {session.currentHand}
      ensures Outcome(Current(), ledger.balances, reply) ==
        PokerLobby.Interact(old(Current()), old(ledger.balances), uid, customId)
      ensures Valid()
    {
      ghost var before := Current();
      InteractOk(before, ledger.balances, uid, customId);
      if session == null || session.currentHand == null {
        return NoActiveHand;
      }
      var s := session;
      var h := s.currentHand;
      ghost var t := s.Snap();
      assert before == Some(t) && t.hand == Some(h.State());
      if !(0 <= h.currentPlayerIndex < |h.actionOrder|) || uid != h.actionOrder[h.currentPlayerIndex] {
        assert PokerLobby.Interact(before, ledger.balances, uid, customId) == Outcome(before, ledger.balances, NotYourTurn);
        return NotYourTurn;
      }
      var player := FindPlayer(s.players, uid);
      if player.None? && StartsWith(customId, "poker_raise_") {
        assert PokerLobby.Interact(before, ledger.balances, uid, customId) == Outcome(before, ledger.balances, Failed);
        return Failed;
      }
      var maxBet := h.MaxCurrentBet();
      var stack := if player.Some? then player.value.stack else 0;
      var d := Decide(customId, stack, maxBet - BetOf(h.currentBets, uid), h.minRaise);
      assert d == PokerLobby.Pressed(t, uid, customId);
      assert PressInTurn(before, uid) && !MissingRaiser(t, uid, customId);
      match d
      case RejectCheck =>
        reply := CannotCheck;
      case RejectRaise =>
        reply := NotEnoughChips;
      case Ignore =>
        reply := ActionRecorded;
      case Perform(action, amount) =>
        reply := Play(uid, action, amount);
    }

    /** `handlePlayerAction` from the button handler; the game's end drops the session. */
    method Play(uid: UserId, action: Action, amount: int) returns (reply: Reply)
      requires session != null && session.currentHand != null && session.currentHand.Valid()
      requires uid in session.currentHand.actionOrder
      modifies this`session, session, ledger, session.currentHand
      ensures var st := PlayerAction(old(Current()).value, old(ledger.balances), uid, action, amount);
        Outcome(Current(), ledger.balances, reply) ==
        Outcome(After(st), st.balances, if st.progress == Crashed then Failed else ActionRecorded)
    {
      var progress := session.HandlePlayerAction(ledger, uid, action, amount);
      if progress == GameOver {
        session := null;
      }
      reply := if progress == Crashed then Failed else ActionRecorded;
    }

    /**
      The timers that start a hand (3 s after `/poker start`, 5 s after a
      hand): only a session still active plays one, from a deck shuffled
      with `picks`; `deck` is that deck.
    */
    method Resume(picks: seq<nat>) returns (reply: Reply, deck: seq<Card>)
      requires Valid() && ValidPicks(picks, 52)
      modifies this`session, session, ledger
      ensures Outcome(Current(), ledger.balances, reply) ==
        PokerLobby.Resume(old(Current()), old(ledger.balances), deck)
      ensures Valid()
    {
      deck := [];
      if session == null || session.status != Active {
        return ActionRecorded, deck;
      }
      ghost var t, b := Current(), ledger.balances;
      var progress;
      progress, deck := session.StartHand(ledger, picks);
      ResumeOk(t, b, deck);
      if progress == GameOver {
        session := null;
      }
      reply := if progress == Crashed then Failed else ActionRecorded;
    }
  }
}
