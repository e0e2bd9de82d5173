/**
  The session lifecycle of src/commands/roulette.js. `/roulette <bet>`
  opens a session holding the bet; a bet-type button records the type and
  either spins at once (red, black, low, high, five), asks for numbers in
  a modal (single, split) or offers follow-up buttons; a follow-up button
  or an accepted modal spins. A spin settles through the ledger and ends
  the session.

  Each handler is a method of the class `Roulette`, whose field is the
  module's `sessions` map, and is proved equal to a function over values
  (`ExecuteStep`, `InteractStep`, `ModalStep`, `GameStep`); the lemmas
  are about those functions. The wheel is an input: `pick` is the index
  `Math.floor(Math.random() * 38)` chose.
*/
module Roulette {
  import opened Wrappers
  import opened JsNum
  import opened Db
  import opened Bets
  import opened RouletteTable
  import opened RouletteButtons

  /** A session: the bet as given (`Number(bet)`, not truncated) and the bet type once chosen. */
  datatype Session = Session(bet: int, betType: Option<string>)

  datatype Reply =
    | Ended                                  // a session was open: it is closed, nothing else happens
    | Refused(error: BetError)               // `validateBet` failed
    | Board(bet: int, rows: seq<seq<Button>>)
    | NoGame                                 // a button without a session
    | NoGameFound                            // a modal without a session
    | AskNumbers(betType: string)            // the single or split modal
    | Offer(betType: string, payout: nat, rows: seq<seq<Button>>)
    | Spun(wheel: Pocket, win: bool, amount: int, numbers: seq<Pocket>)
    | BadInput(why: Rejection)               // the modal's input was refused
    | UnknownAction
    | NoReply                                // a modal of another type: `undefined`
    | Threw                                  // a TypeError escapes the handler

  /** The sessions, the ledger's balances and the reply after one handler. */
  datatype Step = Step(sessions: map<UserId, Session>, balances: map<UserId, int>, reply: Reply)

  /** The bet types that spin as soon as they are chosen. */
  const FixedBets: set<string> := {"red", "black", "low", "high", "five"}

  const TypePrefix: string := "roulette_type_"
  const SelectPrefix: string := "roulette_select_"
  const ModalPrefix: string := "roulette_modal_"

  /**
    `executeGame`: spin, pay `bet * payout` on a win or take `bet` on a
    loss, and end the session. Where `getBetNumbers` throws nothing changes.
  */
  function GameStep(sessions: map<UserId, Session>, balances: map<UserId, int>, u: UserId,
                    bet: int, kind: BetKind, selection: Option<string>, pick: nat): Step
    requires pick < 38
  {
    var numbers := BetNumbers(kind, selection);
    if numbers.None? then Step(sessions, balances, Threw)
    else
      var w := Wheel()[pick];
      if w in numbers.value then
        var amount := Winnings(bet, kind);
        Step(sessions - {u}, Credited(balances, u, amount), Spun(w, true, amount, numbers.value))
      else
        Step(sessions - {u}, Credited(balances, u, -bet), Spun(w, false, bet, numbers.value))
  }

  /** What a winning bet is credited: the stake times the bet type's payout. */
  function Winnings(bet: int, kind: BetKind): int {
    bet * Payout(kind)
  }

  /** `execute`: close an open session, or validate the bet and open one. */
  function ExecuteStep(sessions: map<UserId, Session>, balances: map<UserId, int>, u: UserId,
                       rawBet: int): Step
  {
    if u in sessions then Step(sessions - {u}, balances, Ended)
    else
      match CheckBet(BalanceIn(balances, u), rawBet)
      case Rejected(e) => Step(sessions, balances, Refused(e))
      case Accepted(_) => Step(sessions[u := Session(rawBet, None)], balances, Board(rawBet, TypeButtons()))
  }

  /** `interact`: a bet-type button, a follow-up button, or anything else. */
  function InteractStep(sessions: map<UserId, Session>, balances: map<UserId, int>, u: UserId,
                        customId: string, pick: nat): Step
    requires pick < 38
  {
    if u !in sessions then Step(sessions, balances, NoGame)
    else
      var s := sessions[u];
      if TypePrefix <= customId then
        var t := customId[|TypePrefix|..];
        var chosen := sessions[u := s.(betType := Some(t))];
        if t in FixedBets then GameStep(chosen, balances, u, s.bet, KindOf(Some(t)), None, pick)
        else if t == "single" || t == "split" then Step(chosen, balances, AskNumbers(t))
        else Step(chosen, balances, Offer(t, Payout(KindOf(Some(t))), FollowUpRows(t)))
      else if SelectPrefix <= customId then
        GameStep(sessions, balances, u, s.bet, KindOf(s.betType), SelectionOf(customId), pick)
      else Step(sessions, balances, UnknownAction)
  }

  /** `handleModalSubmit`: check the typed numbers; a refusal ends the session. */
  function ModalStep(sessions: map<UserId, Session>, balances: map<UserId, int>, u: UserId,
                     customId: string, input: string, pick: nat): Step
    requires pick < 38
  {
    if u !in sessions then Step(sessions, balances, NoGameFound)
    else
      var betType := ReplaceFirst(customId, ModalPrefix, "");
      if betType == "single" then ModalPlay(sessions, balances, u, Single, CheckSingle(input), pick)
      else if betType == "split" then ModalPlay(sessions, balances, u, SplitBet, CheckSplit(input), pick)
      else Step(sessions, balances, NoReply)
  }

  /** After the check: end the session on a refusal, spin on the accepted selection. */
  function ModalPlay(sessions: map<UserId, Session>, balances: map<UserId, int>, u: UserId,
                     kind: BetKind, checked: Checked, pick: nat): Step
    requires pick < 38 && u in sessions
  {
    if checked.Invalid? then Step(sessions - {u}, balances, BadInput(checked.why))
    else GameStep(sessions, balances, u, sessions[u].bet, kind, Some(checked.selection), pick)
  }

  // ------------------------------------------------------------------ properties

  /**
    A spin that does not throw wins iff the wheel shows a pocket the bet
    covers; a win credits `bet * payout` and a loss takes `bet`, and the
    session ends either way. No other user's session or balance changes.
  */
  lemma SpinSettles(sessions: map<UserId, Session>, balances: map<UserId, int>, u: UserId,
                    bet: int, kind: BetKind, sel: Option<string>, pick: nat)
    requires pick < 38 && BetNumbers(kind, sel).Some?
    ensures var r := GameStep(sessions, balances, u, bet, kind, sel, pick);
      && r.reply.Spun? && r.reply.wheel == Wheel()[pick]
      && (r.reply.win <==> Wheel()[pick] in BetNumbers(kind, sel).value)
      && r.sessions == sessions - {u}
      && r.balances[u] == NextBalance(BalanceIn(balances, u), if r.reply.win then bet * Payout(kind) else -bet)
      && forall v :: v in balances && v != u ==> v in r.balances && r.balances[v] == balances[v]
  {
  }

  /** A bet type outside the payout table (none chosen yet, say) covers nothing and always loses. */
  lemma UnknownTypeLoses(sessions: map<UserId, Session>, balances: map<UserId, int>, u: UserId,
                         bet: int, sel: Option<string>, pick: nat)
    requires pick < 38
    ensures var r := GameStep(sessions, balances, u, bet, Unknown, sel, pick);
      r.reply.Spun? && !r.reply.win && r.balances == Credited(balances, u, -bet)
  {
  }

  /** `execute` never touches the ledger: it only closes an open session or opens a new one. */
  lemma ExecuteOnlyOpensOrCloses(sessions: map<UserId, Session>, balances: map<UserId, int>, u: UserId,
                                 rawBet: int)
    ensures var r := ExecuteStep(sessions, balances, u, rawBet);
      && r.balances == balances
      && (u in sessions ==> r.sessions == sessions - {u} && r.reply == Ended)
      && (u !in sessions ==>
            (u in r.sessions <==> 0 <= ToInt32(rawBet) <= BalanceIn(balances, u))
            && (u in r.sessions ==> r.sessions == sessions[u := Session(rawBet, None)])
            && (u !in r.sessions ==> r.sessions == sessions && r.reply.Refused?))
  {
  }

  /** A modal whose input is refused ends the session and changes no balance. */
  lemma ModalRefusalEndsSession(sessions: map<UserId, Session>, balances: map<UserId, int>, u: UserId,
                                t: string, input: string, pick: nat)
    requires pick < 38 && u in sessions && (t == "single" || t == "split")
    requires (if t == "single" then CheckSingle(input) else CheckSplit(input)).Invalid?
    ensures var r := ModalStep(sessions, balances, u, ModalPrefix + t, input, pick);
      && r.sessions == sessions - {u} && r.balances == balances
      && r.reply == BadInput((if t == "single" then CheckSingle(input) else CheckSplit(input)).why)
  {
    assert (ModalPrefix + t)[|ModalPrefix|..] == t;
  }

  /** The modal's custom id names its bet type. */
  lemma ModalType(t: string)
    ensures ReplaceFirst(ModalPrefix + t, ModalPrefix, "") == t
  {
    assert (ModalPrefix + t)[|ModalPrefix|..] == t;
  }

  /** An accepted modal plays its bet type on the selection the check produced. */
  lemma ModalPlays(sessions: map<UserId, Session>, balances: map<UserId, int>, u: UserId,
                   t: string, input: string, pick: nat)
    requires pick < 38 && u in sessions && (t == "single" || t == "split")
    requires (if t == "single" then CheckSingle(input) else CheckSplit(input)).Valid?
    ensures ModalStep(sessions, balances, u, ModalPrefix + t, input, pick)
      == GameStep(sessions, balances, u, sessions[u].bet, if t == "single" then Single else SplitBet,
                  Some((if t == "single" then CheckSingle(input) else CheckSplit(input)).selection), pick)
  {
    ModalType(t);
  }

  /** An accepted single wins iff the wheel shows the pocket typed, and then pays 35 to 1. */
  lemma SingleWinsIffHit(sessions: map<UserId, Session>, balances: map<UserId, int>, u: UserId,
                         input: string, pick: nat)
    requires pick < 38 && u in sessions && CheckSingle(input).Valid?
    ensures var r := ModalStep(sessions, balances, u, ModalPrefix + "single", input, pick);
      && r.reply.Spun? && r.sessions == sessions - {u}
      && (r.reply.win <==> Wheel()[pick] == TypedPocket(input))
      && (r.reply.win ==> r.reply.amount == sessions[u].bet * 35)
  {
    ModalPlays(sessions, balances, u, "single", input, pick);
    var sel := Some(CheckSingle(input).selection);
    SingleCoversOnePocket(input);
    SpinSettles(sessions, balances, u, sessions[u].bet, Single, sel, pick);
  }

  /** An accepted split wins iff the wheel shows one of the two neighbours typed, and then pays 17 to 1. */
  lemma SplitWinsIffHit(sessions: map<UserId, Session>, balances: map<UserId, int>, u: UserId,
                        input: string, pick: nat)
    requires pick < 38 && u in sessions && CheckSplit(input).Valid?
    ensures var r := ModalStep(sessions, balances, u, ModalPrefix + "split", input, pick);
      && r.reply.Spun? && r.sessions == sessions - {u}
      && (r.reply.win <==> Wheel()[pick] in TypedPair(input))
      && (r.reply.win ==> r.reply.amount == sessions[u].bet * 17)
  {
    ModalPlays(sessions, balances, u, "split", input, pick);
    var sel := Some(CheckSplit(input).selection);
    SplitCoversTwoNeighbours(input);
    SpinSettles(sessions, balances, u, sessions[u].bet, SplitBet, sel, pick);
  }

  /** A select id never starts like a bet-type id. */
  lemma SelectIsNotType(id: string)
    requires SelectPrefix <= id
    ensures !(TypePrefix <= id)
  {
    assert id[9] == SelectPrefix[9] == 's';
  }

  /**
    Choosing a bet type that offers follow-up buttons records it; a select
    button clicked next spins that type on the button's selection.
  */
  lemma SelectAfterType(sessions: map<UserId, Session>, balances: map<UserId, int>, u: UserId,
                        t: string, id: string, p0: nat, pick: nat)
    requires p0 < 38 && pick < 38 && u in sessions && SelectPrefix <= id
    requires t !in FixedBets && t != "single" && t != "split"
    ensures var r1 := InteractStep(sessions, balances, u, TypePrefix + t, p0);
      var r2 := InteractStep(r1.sessions, r1.balances, u, id, pick);
      && r1.balances == balances
      && r1.reply == Offer(t, Payout(KindOf(Some(t))), FollowUpRows(t))
      && r2 == GameStep(r1.sessions, balances, u, sessions[u].bet, KindOf(Some(t)), SelectionOf(id), pick)
  {
    assert (TypePrefix + t)[|TypePrefix|..] == t;
    SelectIsNotType(id);
  }

  /**
    End to end: a street chosen, then the k-th street button clicked, wins
    iff the wheel lands in the row of three numbers the button shows.
  */
  lemma StreetRound(sessions: map<UserId, Session>, balances: map<UserId, int>, u: UserId,
                    k: int, p0: nat, pick: nat)
    requires p0 < 38 && pick < 38 && u in sessions && 0 <= k < 12
    ensures var r1 := InteractStep(sessions, balances, u, TypePrefix + "street", p0);
      var r2 := InteractStep(r1.sessions, r1.balances, u, Id(Streets()[k]), pick);
      && r1.reply.Offer? && Streets()[k] in Flatten(r1.reply.rows)
      && r2.reply.Spun? && u !in r2.sessions
      && (r2.reply.win <==> Wheel()[pick] in Nums(LabelNumbers("street", StreetStart(k))))
  {
    ChunksFlatten(Streets(), 5);
    assert FollowUpRows("street") == Chunks(Streets(), 5);
    SelectAfterType(sessions, balances, u, "street", Id(Streets()[k]), p0, pick);
    StreetButtonCovers(k);
  }

  /** The same for corners: the spin wins iff it lands in the 2 x 2 block the button shows. */
  lemma CornerRound(sessions: map<UserId, Session>, balances: map<UserId, int>, u: UserId,
                    k: int, p0: nat, pick: nat)
    requires p0 < 38 && pick < 38 && u in sessions && 0 <= k < 22
    ensures var r1 := InteractStep(sessions, balances, u, TypePrefix + "corner", p0);
      var r2 := InteractStep(r1.sessions, r1.balances, u, Id(Corners()[k]), pick);
      && r1.reply.Offer? && Corners()[k] in Flatten(r1.reply.rows)
      && r2.reply.Spun? && u !in r2.sessions
      && (r2.reply.win <==> Wheel()[pick] in Nums(LabelNumbers("corner", CornerStart(k))))
  {
    ChunksFlatten(Corners(), 5);
    assert FollowUpRows("corner") == Chunks(Corners(), 5);
    SelectAfterType(sessions, balances, u, "corner", Id(Corners()[k]), p0, pick);
    CornerButtonCovers(k);
  }

  /**
    Choosing single or split records the type and shows the modal; a
    select button clicked instead (one from an earlier message) spins that
    type on the button's selection.
  */
  lemma SelectAfterModalType(sessions: map<UserId, Session>, balances: map<UserId, int>, u: UserId,
                             t: string, id: string, p0: nat, pick: nat)
    requires p0 < 38 && pick < 38 && u in sessions && SelectPrefix <= id
    requires t == "single" || t == "split"
    ensures var r1 := InteractStep(sessions, balances, u, TypePrefix + t, p0);
      var r2 := InteractStep(r1.sessions, r1.balances, u, id, pick);
      && r1.balances == balances && r1.reply == AskNumbers(t)
      && r2 == GameStep(r1.sessions, balances, u, sessions[u].bet, KindOf(Some(t)), SelectionOf(id), pick)
  {
    assert (TypePrefix + t)[|TypePrefix|..] == t;
    SelectIsNotType(id);
  }

  /**
    As written, the type recorded last decides what a select button plays:
    after "single" is chosen, the second dozen's button of an earlier
    message plays a single on the number 2, at 35 to 1.
  */
  lemma StaleSelectPlaysRecordedType(sessions: map<UserId, Session>, balances: map<UserId, int>,
                                     u: UserId, p0: nat, pick: nat)
    requires p0 < 38 && pick < 38 && u in sessions
    ensures var r1 := InteractStep(sessions, balances, u, TypePrefix + "single", p0);
      var r2 := InteractStep(r1.sessions, r1.balances, u, Id(DozenButtons()[1]), pick);
      && r1.reply == AskNumbers("single")
      && r2 == GameStep(r1.sessions, balances, u, sessions[u].bet, Single, Some(NatToString(2)), pick)
      && BetNumbers(Single, Some(NatToString(2))) == Some([Num(2)])
  {
    DozenButtonSelects(2);
    SelectAfterModalType(sessions, balances, u, "single", Id(DozenButtons()[1]), p0, pick);
    SinglePlaysNumber(2);
  }

  lemma SinglePlaysNumber(n: nat)
    requires n != 0
    ensures BetNumbers(Single, Some(NatToString(n))) == Some([Num(n)])
  {
    ParseIntOfString(n);
    assert DigitsValue("00") == 0;
  }

  /** Only u's session and u's balance may differ between the two states. */
  ghost predicate OthersUnchanged(sessions: map<UserId, Session>, balances: map<UserId, int>, r: Step, u: UserId) {
    && (forall v :: v != u ==> (v in r.sessions <==> v in sessions))
    && (forall v :: v != u && v in sessions ==> r.sessions[v] == sessions[v])
    && (forall v :: v != u ==> (v in r.balances <==> v in balances))
    && (forall v :: v != u && v in balances ==> r.balances[v] == balances[v])
  }

  lemma GameOthersUnchanged(sessions: map<UserId, Session>, balances: map<UserId, int>, u: UserId,
                            bet: int, kind: BetKind, sel: Option<string>, pick: nat)
    requires pick < 38
    ensures OthersUnchanged(sessions, balances, GameStep(sessions, balances, u, bet, kind, sel, pick), u)
  {
  }

  /** `execute` touches no one else's session or balance. */
  lemma ExecuteOthersUnchanged(sessions: map<UserId, Session>, balances: map<UserId, int>, u: UserId,
                               rawBet: int)
    ensures OthersUnchanged(sessions, balances, ExecuteStep(sessions, balances, u, rawBet), u)
  {
  }

  /** `interact` touches no one else's session or balance. */
  lemma InteractOthersUnchanged(sessions: map<UserId, Session>, balances: map<UserId, int>, u: UserId,
                                customId: string, pick: nat)
    requires pick < 38
    ensures OthersUnchanged(sessions, balances, InteractStep(sessions, balances, u, customId, pick), u)
  {
    if u in sessions {
      var s := sessions[u];
      if TypePrefix <= customId {
        var t := customId[|TypePrefix|..];
        var chosen := sessions[u := s.(betType := Some(t))];
        GameOthersUnchanged(chosen, balances, u, s.bet, KindOf(Some(t)), None, pick);
      } else {
        GameOthersUnchanged(sessions, balances, u, s.bet, KindOf(s.betType), SelectionOf(customId), pick);
      }
    }
  }

  /** `handleModalSubmit` touches no one else's session or balance. */
  lemma ModalOthersUnchanged(sessions: map<UserId, Session>, balances: map<UserId, int>, u: UserId,
                             customId: string, input: string, pick: nat)
    requires pick < 38
    ensures OthersUnchanged(sessions, balances, ModalStep(sessions, balances, u, customId, input, pick), u)
  {
    if u in sessions {
      var betType := ReplaceFirst(customId, ModalPrefix, "");
      if betType == "single" {
        var checked := CheckSingle(input);
        assert ModalStep(sessions, balances, u, customId, input, pick) == ModalPlay(sessions, balances, u, Single, checked, pick);
        PlayOthersUnchanged(sessions, balances, u, Single, checked, pick);
      } else if betType == "split" {
        var checked := CheckSplit(input);
        assert ModalStep(sessions, balances, u, customId, input, pick) == ModalPlay(sessions, balances, u, SplitBet, checked, pick);
        PlayOthersUnchanged(sessions, balances, u, SplitBet, checked, pick);
      }
    }
  }

  lemma PlayOthersUnchanged(sessions: map<UserId, Session>, balances: map<UserId, int>, u: UserId,
                            kind: BetKind, checked: Checked, pick: nat)
    requires pick < 38 && u in sessions
    ensures OthersUnchanged(sessions, balances, ModalPlay(sessions, balances, u, kind, checked, pick), u)
  {
    if checked.Valid? {
      GameOthersUnchanged(sessions, balances, u, sessions[u].bet, kind, Some(checked.selection), pick);
    }
  }

  // ------------------------------------------------------------------ the handlers

  class Roulette {
    var sessions: map<UserId, Session>

    constructor ()
      ensures sessions == map[]
    {
      sessions := map[];
    }

    /** `executeGame` against the ledger. */
    method PlayGame(db: Ledger, u: UserId, bet: int, kind: BetKind, selection: Option<string>, pick: nat)
      returns (reply: Reply)
      requires pick < 38
      modifies this, db
      ensures Step(sessions, db.balances, reply)
        == GameStep(old(sessions), old(db.balances), u, bet, kind, selection, pick)
      ensures db.inventory == old(db.inventory)
      ensures old(db.Valid()) ==> db.Valid()
    {
      ghost var step := GameStep(sessions, db.balances, u, bet, kind, selection, pick);
      var w := Wheel()[pick];
      var numbers := BetNumbers(kind, selection);
      if numbers.None? {
        assert step == Step(sessions, db.balances, Threw);
        return Threw;
      }
      if w in numbers.value {
        var amount := Winnings(bet, kind);
        assert step == Step(sessions - {u}, Credited(db.balances, u, amount), Spun(w, true, amount, numbers.value));
        var _ := db.AddBalance(u, amount);
        reply := Spun(w, true, amount, numbers.value);
      } else {
        assert step == Step(sessions - {u}, Credited(db.balances, u, -bet), Spun(w, false, bet, numbers.value));
        var _ := db.AddBalance(u, -bet);
        reply := Spun(w, false, bet, numbers.value);
      }
      sessions := sessions - {u};
    }

    method Execute(db: Ledger, u: UserId, rawBet: int) returns (reply: Reply)
      modifies this
      ensures Step(sessions, db.balances, reply) == ExecuteStep(old(sessions), db.balances, u, rawBet)
    {
      if u in sessions {
        sessions := sessions - {u};
        return Ended;
      }
      var check := ValidateBet(db, u, rawBet);
      if check.Rejected? {
        return Refused(check.error);
      }
      sessions := sessions[u := Session(rawBet, None)];
      reply := Board(rawBet, TypeButtons());
    }

    method Interact(db: Ledger, u: UserId, customId: string, pick: nat) returns (reply: Reply)
      requires pick < 38
      modifies this, db
      ensures Step(sessions, db.balances, reply)
        == InteractStep(old(sessions), old(db.balances), u, customId, pick)
      ensures db.inventory == old(db.inventory)
      ensures old(db.Valid()) ==> db.Valid()
    {
      if u !in sessions {
        sessions := sessions - {u};
        return NoGame;
      }
      var s := sessions[u];
      if TypePrefix <= customId {
        var t := customId[|TypePrefix|..];
        sessions := sessions[u := s.(betType := Some(t))];
        if t in FixedBets {
          reply := PlayGame(db, u, s.bet, KindOf(Some(t)), None, pick);
        } else if t == "single" || t == "split" {
          reply := AskNumbers(t);
        } else {
          var rows := FollowUpButtons(t);
          reply := Offer(t, Payout(KindOf(Some(t))), rows);
        }
      } else if SelectPrefix <= customId {
        var parts := Split(customId, '_');
        var selection := if |parts| >= 4 then Some(parts[3]) else None;
        reply := PlayGame(db, u, s.bet, KindOf(s.betType), selection, pick);
      } else {
        reply := UnknownAction;
      }
    }

    method ModalSubmit(db: Ledger, u: UserId, customId: string, input: string, pick: nat)
      returns (reply: Reply)
      requires pick < 38
      modifies this, db
      ensures Step(sessions, db.balances, reply)
        == ModalStep(old(sessions), old(db.balances), u, customId, input, pick)
      ensures db.inventory == old(db.inventory)
      ensures old(db.Valid()) ==> db.Valid()
    {
      if u !in sessions {
        return NoGameFound;
      }
      var bet := sessions[u].bet;
      var betType := ReplaceFirst(customId, ModalPrefix, "");
      if betType == "single" {
        var checked := CheckSingle(input);
        if checked.Invalid? {
          sessions := sessions - {u};
          return BadInput(checked.why);
        }
        reply := PlayGame(db, u, bet, Single, Some(checked.selection), pick);
      } else if betType == "split" {
        var checked := CheckSplit(input);
        if checked.Invalid? {
          sessions := sessions - {u};
          return BadInput(checked.why);
        }
        reply := PlayGame(db, u, bet, SplitBet, Some(checked.selection), pick);
      } else {
        reply := NoReply;
      }
    }
  }
}
