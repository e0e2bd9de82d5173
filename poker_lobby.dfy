/**
  The slash commands and the button handler of the poker table
  (src/commands/poker.js): `/poker join`, `leave`, `start`, `end`, the
  action buttons, and the timers that start a hand. The module-level
  `pokerSession` is an `Option<Table>`: `None` is `null`. Each command
  returns the new `pokerSession`, the ledger, and the reply it sends.
*/
module PokerLobby {
  import opened Wrappers
  import opened JsNum
  import opened Shuffle
  import opened Db
  import opened PokerCards
  import opened PokerRules
  import opened PokerHand
  import opened PokerFlow

  /** The interaction response, by what it says. */
  datatype Reply =
    | LowBalance(balance: int)     // needs MIN_BALANCE_REQUIRED chips to join
    | AlreadyIn                    // already seated or waiting
    | TableFull
    | LobbyCreated(balance: int)   // first player: the lobby is opened
    | JoinedLobby(seated: int)     // a later player, with the new head count
    | JoinsNextHand                // joined the waiting list of a running game
    | NoGameToLeave
    | NotInGame
    | LeavesAfterHand
    | LeftLobby
    | LeftWaitlist
    | NoLobby
    | NeedPlayers(seated: int)
    | ThreadFailed
    | GameStarted
    | AdminsOnly
    | NoActiveGame
    | GameEnded
    | NoActiveHand
    | NotYourTurn
    | CannotCheck
    | NotEnoughChips
    | ActionRecorded
    | Failed                       // the handler threw a TypeError

  /** What a command leaves: `pokerSession`, the ledger's balances and the reply. */
  datatype Outcome = Outcome(session: Option<Table>, balances: map<UserId, int>, reply: Reply)

  /** `blankSession`. */
  function Blank(): (t: Table)
    ensures TableOk(t)
  {
    Table(Waiting, [], [], [], 0, 0, None)
  }

  /** `list.filter(x => x !== u)`. */
  function Without(s: seq<UserId>, u: UserId): (r: seq<UserId>)
    ensures forall x :: x in r <==> x in s && x != u
    ensures Distinct(s) ==> Distinct(r)
  {
    if s == [] then []
    else
      var rest := Without(s[1..], u);
      assert forall x :: x in s <==> x == s[0] || x in s[1..];
      if s[0] == u then rest
      else
        assert Distinct(s) ==> s[0] !in s[1..] && Distinct(s[1..]);
        [s[0]] + rest
  }

  /** `players.filter(p => p.userId !== uid)`. */
  function Unseat(players: seq<Player>, uid: UserId): (r: seq<Player>)
    ensures forall q :: q in r <==> q in players && q.userId != uid
    ensures Kept(players, r)
  {
    var keep := (p: Player) => p.userId != uid;
    FilterKept(players, keep);
    Filter(players, keep)
  }

  /** The session a command meets; a missing or ended session is replaced by a blank one on join. */
  function Live(session: Option<Table>): Table {
    if session.None? || session.value.status == Ended then Blank() else session.value
  }

  /**
    `handleJoin`: a user with less than the minimum balance is turned away;
    anybody already seated or waiting too. A waiting table seats the user
    (buy-in = the whole balance) unless all eight seats are taken; a
    running game puts the user on the waiting list, with no cap.
  */
  function HandleJoin(session: Option<Table>, balances: map<UserId, int>, uid: UserId, username: string): (o: Outcome)
    ensures o.balances == balances
    ensures BalanceIn(balances, uid) < MIN_BALANCE_REQUIRED <==> o.reply.LowBalance?
    ensures o.reply.LowBalance? ==> o.session == session
    ensures o.reply == AlreadyIn <==>
      BalanceIn(balances, uid) >= MIN_BALANCE_REQUIRED &&
      (uid in Ids(Live(session).players) || uid in Live(session).waitList)
    ensures o.reply == TableFull ==> |Live(session).players| >= MAX_PLAYERS
    ensures o.reply.LobbyCreated? || o.reply.JoinedLobby? ==>
      && Live(session).status == Waiting && |Live(session).players| < MAX_PLAYERS
      && o.session == Some(Live(session).(players := Live(session).players +
           [Player(uid, username, BalanceIn(balances, uid), |Live(session).players|, BalanceIn(balances, uid))]))
    ensures o.reply == JoinsNextHand ==>
      && Live(session).status == Active
      && o.session == Some(Live(session).(waitList := Live(session).waitList + [uid]))
    ensures !o.reply.LowBalance? ==> o.session.Some?
  {
    var balance := BalanceIn(balances, uid);
    if balance < MIN_BALANCE_REQUIRED then Outcome(session, balances, LowBalance(balance))
    else
      var t := Live(session);
      if uid in Ids(t.players) || uid in t.waitList then Outcome(Some(t), balances, AlreadyIn)
      else if t.status == Waiting then
        if |t.players| >= MAX_PLAYERS then Outcome(Some(t), balances, TableFull)
        else
          var seated := t.players + [Player(uid, username, balance, |t.players|, balance)];
          Outcome(Some(t.(players := seated)), balances,
                  if |seated| == 1 then LobbyCreated(balance) else JoinedLobby(|seated|))
      else Outcome(Some(t.(waitList := t.waitList + [uid])), balances, JoinsNextHand)
  }

  /**
    `handleLeave`: during a game the user is put on the leave list (once);
    otherwise a seated user leaves the lobby and a waiting user the list.
  */
  function HandleLeave(session: Option<Table>, balances: map<UserId, int>, uid: UserId): (o: Outcome)
    ensures o.balances == balances
    ensures session.None? ==> o.session == None && o.reply == NoGameToLeave
    ensures session.Some? && uid !in Ids(session.value.players) && uid !in session.value.waitList ==>
      o.session == session && o.reply == NotInGame
    ensures o.reply == LeavesAfterHand ==>
      && session.value.status == Active
      && o.session.Some? && o.session == Some(session.value.(leaveList := o.session.value.leaveList))
      && (forall u :: u in o.session.value.leaveList <==> u in session.value.leaveList || u == uid)
      && (Distinct(session.value.leaveList) ==> Distinct(o.session.value.leaveList))
    ensures o.reply == LeftLobby ==>
      && session.value.status != Active
      && o.session.Some? && o.session == Some(session.value.(players := o.session.value.players))
      && (forall p :: p in o.session.value.players <==> p in session.value.players && p.userId != uid)
    ensures o.reply == LeftWaitlist ==>
      && session.value.status != Active
      && o.session.Some? && o.session == Some(session.value.(waitList := o.session.value.waitList))
      && (forall u :: u in o.session.value.waitList <==> u in session.value.waitList && u != uid)
  {
    if session.None? then Outcome(session, balances, NoGameToLeave)
    else
      var t := session.value;
      var seated := uid in Ids(t.players);
      if !seated && uid !in t.waitList then Outcome(session, balances, NotInGame)
      else if t.status == Active then
        var leaving := if uid in t.leaveList then t.leaveList else t.leaveList + [uid];
        assert Distinct(t.leaveList) && uid !in t.leaveList ==> Distinct(leaving);
        Outcome(Some(t.(leaveList := leaving)), balances, LeavesAfterHand)
      else if seated then
        Outcome(Some(t.(players := Unseat(t.players, uid))), balances, LeftLobby)
      else Outcome(Some(t.(waitList := Without(t.waitList, uid))), balances, LeftWaitlist)
  }

  /**
    `handleStart`: only a waiting lobby with two or more players starts,
    and only when the game thread could be created (`threadCreated`).
  */
  function HandleStart(session: Option<Table>, balances: map<UserId, int>, threadCreated: bool): (o: Outcome)
    ensures o.balances == balances
    ensures o.reply == GameStarted <==>
      session.Some? && session.value.status == Waiting &&
      |session.value.players| >= MIN_PLAYERS && threadCreated
    ensures o.reply == GameStarted ==> o.session == Some(session.value.(status := Active))
    ensures o.reply != GameStarted ==> o.session == session
  {
    if session.None? || session.value.status != Waiting then Outcome(session, balances, NoLobby)
    else if |session.value.players| < MIN_PLAYERS then Outcome(session, balances, NeedPlayers(|session.value.players|))
    else if !threadCreated then Outcome(session, balances, ThreadFailed)
    else Outcome(Some(session.value.(status := Active)), balances, GameStarted)
  }

  /** `handleEnd`: an admin ends a running game; everybody seated settles, and the session is dropped. */
  function HandleEnd(session: Option<Table>, balances: map<UserId, int>, isAdmin: bool): (o: Outcome)
    ensures o.reply == GameEnded <==> isAdmin && session.Some? && session.value.status == Active
    ensures o.reply == GameEnded ==> o.session.None? && o.balances == SettleAll(balances, session.value.players)
    ensures o.reply != GameEnded ==> o.session == session && o.balances == balances
  {
    if !isAdmin then Outcome(session, balances, AdminsOnly)
    else if session.None? || session.value.status != Active then Outcome(session, balances, NoActiveGame)
    else Outcome(None, SettleAll(balances, session.value.players), GameEnded)
  }

  /** The session once a chain of game steps stopped: the game's end drops it. */
  function After(s: Step): Option<Table> {
    if s.progress == GameOver then None else Some(s.table)
  }

  /**
    The 3 s timer of `handleStart` and the 5 s timer of `endHand`: if the
    session is still active, `startHand` runs with a fresh deck.
  */
  function Resume(session: Option<Table>, balances: map<UserId, int>, deck: seq<Card>): (o: Outcome)
    requires session.Some? ==> session.value.dealerPos >= 0
    ensures session.None? || session.value.status != Active ==> o == Outcome(session, balances, ActionRecorded)
    ensures session.Some? && session.value.status == Active ==>
      var s := StartHand(session.value, balances, deck);
      o == Outcome(After(s), s.balances, if s.progress == Crashed then Failed else ActionRecorded)
  {
    if session.None? || session.value.status != Active then Outcome(session, balances, ActionRecorded)
    else
      var s := StartHand(session.value, balances, deck);
      Outcome(After(s), s.balances, if s.progress == Crashed then Failed else ActionRecorded)
  }

  /** A press by the player whose turn it is in a hand under way. */
  predicate PressInTurn(session: Option<Table>, uid: UserId) {
    session.Some? && InTurn(session.value) &&
    uid == session.value.hand.value.actionOrder[session.value.hand.value.currentPlayerIndex]
  }

  /** A raise button pressed by a user who is not seated: `interact` replies with a failure. */
  predicate MissingRaiser(t: Table, uid: UserId, customId: string) {
    FindPlayer(t.players, uid).None? && StartsWith(customId, "poker_raise_")
  }

  /**
    `interact`: only the player whose turn it is may press a button; a
    check is refused while something is owed and a raise the stack cannot
    cover; everything else goes to `handlePlayerAction`.
  */
  ghost function Interact(session: Option<Table>, balances: map<UserId, int>, uid: UserId, customId: string): (o: Outcome)
    ensures session.None? || session.value.hand.None? ==> o == Outcome(session, balances, NoActiveHand)
    ensures o.reply == NotYourTurn ==> o.session == session && o.balances == balances
    ensures session.Some? && InTurn(session.value) && o.reply != NoActiveHand && o.reply != NotYourTurn ==>
      uid == session.value.hand.value.actionOrder[session.value.hand.value.currentPlayerIndex]
    ensures o.reply == CannotCheck ==> customId == "poker_check" && o.session == session && o.balances == balances
    ensures o.reply == NotEnoughChips ==> StartsWith(customId, "poker_raise_") && o.session == session && o.balances == balances
    ensures o.reply == CannotCheck <==>
      PressInTurn(session, uid) && !MissingRaiser(session.value, uid, customId) && Pressed(session.value, uid, customId) == RejectCheck
    ensures o.reply == NotEnoughChips <==>
      PressInTurn(session, uid) && !MissingRaiser(session.value, uid, customId) && Pressed(session.value, uid, customId) == RejectRaise
    ensures PressInTurn(session, uid) && MissingRaiser(session.value, uid, customId) ==> o == Outcome(session, balances, Failed)
    ensures PressInTurn(session, uid) && !MissingRaiser(session.value, uid, customId) && Pressed(session.value, uid, customId) == Ignore ==>
      o == Outcome(session, balances, ActionRecorded)
    ensures PressInTurn(session, uid) && !MissingRaiser(session.value, uid, customId) && Pressed(session.value, uid, customId).Perform? ==>
      var d := Pressed(session.value, uid, customId);
      var s := PlayerAction(session.value, balances, uid, d.action, d.amount);
      o == Outcome(After(s), s.balances, if s.progress == Crashed then Failed else ActionRecorded)
  {
    if session.None? || session.value.hand.None? then Outcome(session, balances, NoActiveHand)
    else
      var t := session.value;
      var h := t.hand.value;
      if !InTurn(t) || uid != h.actionOrder[h.currentPlayerIndex] then Outcome(session, balances, NotYourTurn)
      else
        if MissingRaiser(t, uid, customId) then Outcome(session, balances, Failed)
        else
          match Pressed(t, uid, customId)
          case RejectCheck => Outcome(session, balances, CannotCheck)
          case RejectRaise => Outcome(session, balances, NotEnoughChips)
          case Ignore => Outcome(session, balances, ActionRecorded)
          case Perform(action, amount) =>
            var s := PlayerAction(t, balances, uid, action, amount);
            Outcome(After(s), s.balances, if s.progress == Crashed then Failed else ActionRecorded)
  }

  // --------------------------------------------------------------- proofs

  /** The invariant of a live session, `None` being trivially fine. */
  ghost predicate SessionOk(session: Option<Table>) {
    session.Some? ==> TableOk(session.value)
  }

  /** Joining never seats or queues anybody twice, and never seats a ninth player. */
  lemma {:induction false} HandleJoinOk(session: Option<Table>, balances: map<UserId, int>, uid: UserId, username: string)
    requires SessionOk(session)
    ensures var o := HandleJoin(session, balances, uid, username);
      && SessionOk(o.session)
      && (o.session.Some? && o.session.value.status == Waiting && |Live(session).players| <= MAX_PLAYERS ==>
            |o.session.value.players| <= MAX_PLAYERS)
  {
    var o := HandleJoin(session, balances, uid, username);
    var t := Live(session);
    assert TableOk(t);
    if o.reply.LobbyCreated? || o.reply.JoinedLobby? {
      var p := Player(uid, username, BalanceIn(balances, uid), |t.players|, BalanceIn(balances, uid));
      assert Ids(t.players + [p]) == Ids(t.players) + [uid];
      assert Apart(t.players + [p], t.waitList);
    } else if o.reply == JoinsNextHand {
      assert Apart(t.players, t.waitList + [uid]);
    }
  }

  /** Leaving keeps the session's invariant. */
  lemma HandleLeaveOk(session: Option<Table>, balances: map<UserId, int>, uid: UserId)
    requires SessionOk(session)
    ensures SessionOk(HandleLeave(session, balances, uid).session)
  {
    var o := HandleLeave(session, balances, uid);
    if o.reply == LeftLobby {
      var t := session.value;
      assert Apart(o.session.value.players, t.waitList);
    } else if o.reply == LeftWaitlist {
      var t := session.value;
      var w := o.session.value.waitList;
      forall i | 0 <= i < |w| ensures w[i] !in Ids(t.players) {
        assert w[i] in t.waitList;
      }
    }
  }

  /**
    Every seated player is paid out at the end of the game: an admin's
    `/poker end` credits each one `stack - buyIn`, through the ledger's clamp.
  */
  lemma HandleEndSettles(session: Option<Table>, balances: map<UserId, int>, i: int)
    requires session.Some? && session.value.status == Active && TableOk(session.value)
    requires 0 <= i < |session.value.players|
    ensures var p := session.value.players[i];
      BalanceIn(HandleEnd(session, balances, true).balances, p.userId) ==
      NextBalance(BalanceIn(balances, p.userId), p.stack - p.buyIn)
  {
    SettleAllCredits(balances, session.value.players, i);
  }

  /** The action a button press by the player in turn leads to, if any. */
  ghost function Pressed(t: Table, uid: UserId, customId: string): (d: Decision)
    requires t.hand.Some?
  {
    var h := t.hand.value;
    var player := FindPlayer(t.players, uid);
    Decide(customId, if player.Some? then player.value.stack else 0,
           MaxBet(h.currentBets) - BetOf(h.currentBets, uid), h.minRaise)
  }

  /** A button press keeps the session's invariant. */
  lemma InteractOk(session: Option<Table>, balances: map<UserId, int>, uid: UserId, customId: string)
    requires SessionOk(session)
    ensures SessionOk(Interact(session, balances, uid, customId).session)
  {
    if session.Some? && session.value.hand.Some? && InTurn(session.value) {
      var t := session.value;
      var h := t.hand.value;
      var d := Pressed(t, uid, customId);
      if uid == h.actionOrder[h.currentPlayerIndex] && d.Perform? {
        PlayerActionOk(t, balances, uid, d.action, d.amount);
      }
    }
  }

  /** A timer starting the next hand keeps the session's invariant. */
  lemma ResumeOk(session: Option<Table>, balances: map<UserId, int>, deck: seq<Card>)
    requires SessionOk(session)
    ensures SessionOk(Resume(session, balances, deck).session)
  {
    if session.Some? && session.value.status == Active {
      StartHandOk(session.value, balances, deck);
    }
  }
}
