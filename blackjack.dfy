/**
  Blackjack against the house (src/commands/blackjack.js): the shuffled
  deck, the hand value with soft aces, the dealer's draw, and the games of
  the module-level `sessions` map, each settled once through the bet lock
  of `Bets`.
*/
module Blackjack {
  import opened Wrappers
  import opened JsNum
  import opened Shuffle
  import opened Db
  import opened Bets

  /** A rank is a number (2..10) or a letter ("J", "Q", "K", "A"). */
  datatype Rank = Pip(n: int) | Letter(name: string)

  datatype Card = Card(suit: char, rank: Rank)

  const Suits: seq<char> := ['\U{2660}', '\U{2665}', '\U{2666}', '\U{2663}']

  const Ranks: seq<Rank> := [Pip(2), Pip(3), Pip(4), Pip(5), Pip(6), Pip(7), Pip(8), Pip(9), Pip(10),
                             Letter("J"), Letter("Q"), Letter("K"), Letter("A")]

  /** The cards the deck is built from: numbers are 2..10. */
  predicate ValidCard(c: Card) {
    c.rank.Pip? ==> 2 <= c.rank.n <= 10
  }

  predicate AllValid(cards: seq<Card>) {
    forall i :: 0 <= i < |cards| ==> ValidCard(cards[i])
  }

  // ------------------------------------------------------------------ deck

  /** The deck before shuffling: suit by suit, each suit in rank order. */
  function OrderedDeck(): (d: seq<Card>)
    ensures |d| == 52
    ensures forall i :: 0 <= i < 52 ==> d[i] == Card(Suits[i / 13], Ranks[i % 13])
  {
    seq(52, i requires 0 <= i < 52 => Card(Suits[i / 13], Ranks[i % 13]))
  }

  /** The 52 cards of the construction are pairwise different and all valid. */
  lemma OrderedDeckDistinct()
    ensures Distinct(OrderedDeck()) && AllValid(OrderedDeck())
  {
    var d := OrderedDeck();
    assert Distinct(Ranks);
    forall i, j | 0 <= i < j < 52 ensures d[i] != d[j] {
      if i / 13 == j / 13 {
        assert i % 13 != j % 13;
      } else {
        assert Suits[i / 13] != Suits[j / 13];
      }
    }
  }

  /**
    `getShuffledDeck`: the nested loops push every (suit, rank), then the
    Fisher-Yates loop shuffles with the supplied picks: 52 different valid
    cards, a permutation of the construction.
  */
  method GetShuffledDeck(picks: seq<nat>) returns (deck: seq<Card>)
    requires ValidPicks(picks, 52)
    ensures |deck| == 52 && multiset(deck) == multiset(OrderedDeck())
    ensures Distinct(deck) && AllValid(deck)
  {
    var ordered: seq<Card> := [];
    var s := 0;
    while s < 4
      invariant 0 <= s <= 4
      invariant ordered == OrderedDeck()[..13 * s]
    {
      var r := 0;
      while r < 13
        invariant 0 <= r <= 13
        invariant ordered == OrderedDeck()[..13 * s + r]
      {
        ordered := ordered + [Card(Suits[s], Ranks[r])];
        r := r + 1;
      }
      s := s + 1;
    }
    assert ordered == OrderedDeck();
    OrderedDeckDistinct();
    deck := Shuffled(ordered, picks);
    forall i | 0 <= i < 52 ensures ValidCard(deck[i]) {
      assert deck[i] in multiset(ordered);
    }
  }

  // ------------------------------------------------------------ hand value

  /** What a card adds before any ace is softened: its number, 11 for an ace, 10 otherwise. */
  function Points(c: Card): int {
    match c.rank
    case Pip(n) => n
    case Letter(name) => if name == "A" then 11 else 10
  }

  function AceCount(hand: seq<Card>): nat {
    if hand == [] then 0
    else AceCount(hand[..|hand| - 1]) + if hand[|hand| - 1].rank == Letter("A") then 1 else 0
  }

  /** The first loop of `handValue`: every ace counted as 11. */
  function RawValue(hand: seq<Card>): int {
    if hand == [] then 0 else RawValue(hand[..|hand| - 1]) + Points(hand[|hand| - 1])
  }

  /** The second loop: take 10 off, one ace at a time, while the total is over 21. */
  function Reduce(value: int, aces: nat): (r: int)
    ensures r <= value && (value - r) % 10 == 0 && value - r <= 10 * aces
    ensures r <= 21 || r == value - 10 * aces
    ensures r < value ==> r > 11
    decreases aces
  {
    if value > 21 && aces > 0 then Reduce(value - 10, aces - 1) else value
  }

  /** `handValue`. */
  function HandValue(hand: seq<Card>): int {
    Reduce(RawValue(hand), AceCount(hand))
  }

  /** The total with k of the aces counted as 1 instead of 11. */
  function Total(hand: seq<Card>, k: int): int {
    RawValue(hand) - 10 * k
  }

  /**
    The value of a hand is one of its totals (some aces counted as 1): the
    largest one that is at most 21, or, if there is none, the one with
    every ace counted as 1.
  */
  lemma HandValueIsBest(hand: seq<Card>)
    ensures exists k :: 0 <= k <= AceCount(hand) && HandValue(hand) == Total(hand, k)
    ensures forall k :: 0 <= k <= AceCount(hand) && Total(hand, k) <= 21 ==> Total(hand, k) <= HandValue(hand)
    ensures HandValue(hand) > 21 ==> HandValue(hand) == Total(hand, AceCount(hand))
  {
    var v, raw := HandValue(hand), RawValue(hand);
    var k0 := (raw - v) / 10;
    assert v == Total(hand, k0);
    forall k | 0 <= k <= AceCount(hand) && Total(hand, k) <= 21 ensures Total(hand, k) <= v {
      assert k >= k0;
    }
  }

  /** With every ace at 1, each valid card adds at least 1. */
  lemma {:induction false} RawValueAtLeastCards(hand: seq<Card>)
    requires AllValid(hand)
    ensures RawValue(hand) - 10 * AceCount(hand) >= |hand|
  {
    if hand != [] {
      RawValueAtLeastCards(hand[..|hand| - 1]);
    }
  }

  /** A hand of valid cards is worth at least one point per card. */
  lemma HandValueAtLeastCards(hand: seq<Card>)
    requires AllValid(hand)
    ensures HandValue(hand) >= |hand|
  {
    RawValueAtLeastCards(hand);
  }

  /** Two valid cards never bust: two aces make 12. */
  lemma TwoCardsAtMost21(a: Card, b: Card)
    requires ValidCard(a) && ValidCard(b)
    ensures HandValue([a, b]) <= 21
  {
    assert [a, b][..1] == [a] && [a][..0] == [];
    assert RawValue([a]) == Points(a);
    assert AceCount([a]) == AceCount([]) + (if a.rank == Letter("A") then 1 else 0);
    assert RawValue([a, b]) == Points(a) + Points(b);
    if RawValue([a, b]) == 22 {
      assert AceCount([a, b]) == 2;
      assert Reduce(22, 2) == 12;
    }
  }

  /** The two loops of `handValue`. */
  method ComputeHandValue(hand: seq<Card>) returns (value: int)
    ensures value == HandValue(hand)
  {
    value := 0;
    var aces := 0;
    var i := 0;
    while i < |hand|
      invariant 0 <= i <= |hand|
      invariant value == RawValue(hand[..i]) && aces == AceCount(hand[..i])
    {
      match hand[i].rank {
        case Pip(n) =>
          value := value + n;
        case Letter(name) =>
          if name == "A" {
            value := value + 11;
            aces := aces + 1;
          } else {
            value := value + 10;
          }
      }
      assert hand[..i + 1][..i] == hand[..i];
      i := i + 1;
    }
    assert hand[..|hand|] == hand;
    while value > 21 && aces > 0
      invariant aces >= 0 && Reduce(value, aces) == HandValue(hand)
      decreases aces
    {
      value := value - 10;
      aces := aces - 1;
    }
  }

  // ----------------------------------------------------------------- dealer

  datatype Drawn = Drawn(house: seq<Card>, deck: seq<Card>)

  /**
    The dealer's loop: pop a card onto the house hand while its value is
    below 17. The deck cannot run out: a hand under 17 holds at most 16
    cards.
  */
  function DealerDraw(house: seq<Card>, deck: seq<Card>): (r: Drawn)
    requires AllValid(house) && AllValid(deck) && |house| + |deck| >= 17
    ensures HandValue(r.house) >= 17 && AllValid(r.house)
    ensures |r.house| + |r.deck| == |house| + |deck| && |house| <= |r.house|
    ensures r.house[..|house|] == house && r.deck == deck[..|r.deck|]
    decreases |deck|
  {
    if HandValue(house) >= 17 then Drawn(house, deck)
    else
      HandValueAtLeastCards(house);
      var h := house + [deck[|deck| - 1]];
      var r := DealerDraw(h, deck[..|deck| - 1]);
      assert r.house[..|house|] == h[..|house|];
      r
  }

  /** The dealer stands at once on 17 or more, and draws each card while its hand is below 17. */
  lemma {:induction false} DealerDrawsBelow17(house: seq<Card>, deck: seq<Card>)
    requires AllValid(house) && AllValid(deck) && |house| + |deck| >= 17
    ensures HandValue(house) >= 17 ==> DealerDraw(house, deck) == Drawn(house, deck)
    ensures var r := DealerDraw(house, deck);
      forall i :: |house| <= i < |r.house| ==> HandValue(r.house[..i]) < 17
    decreases |deck|
  {
    if HandValue(house) < 17 {
      HandValueAtLeastCards(house);
      var h := house + [deck[|deck| - 1]];
      var d := deck[..|deck| - 1];
      DealerDrawsBelow17(h, d);
      var r := DealerDraw(house, deck);
      assert r == DealerDraw(h, d);
      forall i | |house| <= i < |r.house| ensures HandValue(r.house[..i]) < 17 {
        if i == |house| {
          assert r.house[..i] == house;
        }
      }
    }
  }

  /** The i-th card of the dealer's final hand, past the cards it started with, is the (i - |house|)-th card off the top. */
  lemma {:induction false} DealerDrawnCard(house: seq<Card>, deck: seq<Card>, i: int)
    requires AllValid(house) && AllValid(deck) && |house| + |deck| >= 17
    requires |house| <= i < |DealerDraw(house, deck).house|
    ensures i - |house| < |deck| && DealerDraw(house, deck).house[i] == deck[|deck| - 1 - (i - |house|)]
    decreases |deck|
  {
    HandValueAtLeastCards(house);
    var h := house + [deck[|deck| - 1]];
    var d := deck[..|deck| - 1];
    var r := DealerDraw(house, deck);
    assert r == DealerDraw(h, d);
    if i == |house| {
      assert r.house[..|h|][i] == h[i];
    } else {
      DealerDrawnCard(h, d, i);
    }
  }

  /** The cards the dealer draws come off the top of the deck, in order. */
  lemma DealerDrawsFromTop(house: seq<Card>, deck: seq<Card>)
    requires AllValid(house) && AllValid(deck) && |house| + |deck| >= 17
    ensures var r := DealerDraw(house, deck);
      forall i :: |house| <= i < |r.house| ==> r.house[i] == deck[|deck| - 1 - (i - |house|)]
  {
    var r := DealerDraw(house, deck);
    forall i | |house| <= i < |r.house| ensures r.house[i] == deck[|deck| - 1 - (i - |house|)] {
      DealerDrawnCard(house, deck, i);
    }
  }

  /** The dealer loop of `interact`. */
  method PlayDealer(house: seq<Card>, deck: seq<Card>) returns (h: seq<Card>, d: seq<Card>, value: int)
    requires AllValid(house) && AllValid(deck) && |house| + |deck| >= 17
    ensures Drawn(h, d) == DealerDraw(house, deck) && value == HandValue(h)
  {
    h, d := house, deck;
    value := ComputeHandValue(h);
    while value < 17
      invariant AllValid(h) && AllValid(d) && |h| + |d| >= 17
      invariant DealerDraw(h, d) == DealerDraw(house, deck) && value == HandValue(h)
      decreases |d|
    {
      HandValueAtLeastCards(h);
      h := h + [d[|d| - 1]];
      d := d[..|d| - 1];
      value := ComputeHandValue(h);
    }
  }

  /** The result once the dealer has played: a dealer bust or a higher player total wins, equal totals tie. */
  function Judge(playerValue: int, houseValue: int): (o: Outcome)
    ensures o == Win <==> houseValue > 21 || playerValue > houseValue
    ensures o == Tie <==> houseValue <= 21 && playerValue == houseValue
    ensures o == Lose <==> houseValue <= 21 && playerValue < houseValue
  {
    if houseValue > 21 || playerValue > houseValue then Win
    else if playerValue == houseValue then Tie
    else Lose
  }

  // ------------------------------------------------------------------ games

  /** The session object: `bet` is the number asked for; the lock keeps the bet its closures settle. */
  datatype Game = Game(deck: seq<Card>, player: seq<Card>, house: seq<Card>, bet: int,
                       doubled: bool, done: bool, lock: Lock)

  /** What holds of a game in progress: its cards are the 52, and the player is not bust. */
  ghost predicate GameOk(g: Game) {
    && AllValid(g.deck) && AllValid(g.player) && AllValid(g.house)
    && |g.house| == 2 && |g.deck| + |g.player| + |g.house| == 52
    && HandValue(g.player) <= 21 && !g.done
  }

  /** Two pops to the player, two to the house. */
  function Deal(deck: seq<Card>, bet: int, lock: Lock): (g: Game)
    requires |deck| == 52
    ensures |g.deck| == 48 && multiset(g.deck + g.player + g.house) == multiset(deck)
  {
    var g := Game(deck[..48], [deck[51], deck[50]], [deck[49], deck[48]], bet, false, false, lock);
    assert deck == g.deck + [deck[48], deck[49], deck[50], deck[51]];
    assert g.deck + g.player + g.house == g.deck + [deck[51], deck[50], deck[49], deck[48]];
    g
  }

  /** A fresh deal is a game in progress. */
  lemma DealOk(deck: seq<Card>, bet: int, lock: Lock)
    requires |deck| == 52 && AllValid(deck)
    ensures GameOk(Deal(deck, bet, lock))
  {
    TwoCardsAtMost21(deck[51], deck[50]);
  }

  datatype Reply =
    | InProgress                          // a game is already running
    | BetRefused(error: BetError)
    | Started(player: seq<Card>, houseShows: Card, value: int)
    | NoGame                              // no game, or a finished one
    | Drew(value: int)                    // a hit that did not bust
    | Bust(value: int)                    // lost without the dealer playing
    | Finished(result: Outcome, playerValue: int, houseValue: int)
    | AlreadyDoubled
    | CannotDouble
    | UnknownAction

  /**
    What a button does to a game: the game left in `sessions` (`None`:
    deleted), whether the bet is locked again (double down), the settle
    closure called, and the reply.
  */
  datatype Effect = Effect(game: Option<Game>, relock: bool, settle: Option<Outcome>, reply: Reply)

  /** `deck.pop()` onto the player's hand. */
  function TakeCard(g: Game): Game
    requires |g.deck| > 0
  {
    g.(player := g.player + [g.deck[|g.deck| - 1]], deck := g.deck[..|g.deck| - 1])
  }

  /** The dealer plays and the player's total `value` is judged against it; the game ends. */
  function Stand(g: Game, value: int, relock: bool): (e: Effect)
    requires AllValid(g.house) && AllValid(g.deck) && |g.house| + |g.deck| >= 17
  {
    var hv := HandValue(DealerDraw(g.house, g.deck).house);
    var o := Judge(value, hv);
    Effect(None, relock, Some(o), Finished(o, value, hv))
  }

  /** `interact` on a live game `g`, with `chips` the user's balance. */
  function Press(g: Game, customId: string, chips: int): (e: Effect)
    requires GameOk(g)
  {
    HandValueAtLeastCards(g.player);
    if customId == "bj_hit" then
      var g1 := TakeCard(g);
      var v := HandValue(g1.player);
      if v > 21 then Effect(None, false, Some(Lose), Bust(v))
      else Effect(Some(g1), false, None, Drew(v))
    else if customId == "bj_stand" || g.done then Stand(g, HandValue(g.player), false)
    else if customId == "bj_double" then DoubleEffect(g, chips)
    else Effect(Some(g), false, None, UnknownAction)
  }

  /** The game after a double down: twice the bet, one more card, marked doubled. */
  function DoubledGame(g: Game): Game
    requires |g.deck| > 0
  {
    TakeCard(g.(bet := g.bet * 2)).(doubled := true)
  }

  /** The double-down button on a live game, with `chips` the user's balance. */
  function DoubleEffect(g: Game, chips: int): (e: Effect)
    requires GameOk(g)
  {
    HandValueAtLeastCards(g.player);
    if g.doubled then Effect(Some(g), false, None, AlreadyDoubled)
    else if chips < g.bet then Effect(Some(g), false, None, CannotDouble)
    else
      var g1 := DoubledGame(g);
      var v := HandValue(g1.player);
      if v > 21 then Effect(None, true, Some(Lose), Bust(v))
      else Stand(g1, v, true)
  }

  /**
    A button settles the game exactly when it ends it, a game that goes on
    is still in progress, and only a double down locks the bet again.
  */
  lemma PressSettlesOnce(g: Game, customId: string, chips: int)
    requires GameOk(g)
    ensures var e := Press(g, customId, chips);
      && (e.game.None? <==> e.settle.Some?)
      && (e.game.Some? ==> GameOk(e.game.value) && e.game.value.lock == g.lock && e.game.value.doubled == g.doubled)
      && (e.relock ==> customId == "bj_double" && !g.doubled && chips >= g.bet)
  {
    HandValueAtLeastCards(g.player);
  }

  /** A hit that goes over 21 loses at once: no dealer play, no refund. */
  lemma HitBustLoses(g: Game, chips: int)
    requires GameOk(g)
    ensures |g.deck| >= 29
    ensures var top := g.deck[|g.deck| - 1];
      var e := Press(g, "bj_hit", chips);
      && (HandValue(g.player + [top]) > 21 <==> e.settle == Some(Lose))
      && (e.settle == Some(Lose) ==> e.reply == Bust(HandValue(g.player + [top])) && !e.relock)
      && (e.settle.None? ==> e.game == Some(g.(player := g.player + [top], deck := g.deck[..|g.deck| - 1])))
  {
    HandValueAtLeastCards(g.player);
  }

  /** Standing: the dealer draws to 17 or more and the totals are judged. */
  lemma StandJudges(g: Game, chips: int)
    requires GameOk(g)
    ensures |g.deck| >= 29
    ensures var r := DealerDraw(g.house, g.deck);
      var e := Press(g, "bj_stand", chips);
      && e.game.None? && !e.relock
      && HandValue(r.house) >= 17
      && e.settle == Some(Judge(HandValue(g.player), HandValue(r.house)))
  {
    HandValueAtLeastCards(g.player);
  }

  /**
    Doubling down is refused once doubled or when the balance is below the
    bet; otherwise the bet is locked again, exactly one card is drawn and
    the game is decided with it.
  */
  lemma DoubleDrawsOne(g: Game, chips: int)
    requires GameOk(g)
    ensures |g.deck| >= 29
    ensures var e := Press(g, "bj_double", chips);
      && (g.doubled || chips < g.bet ==> e.game == Some(g) && !e.relock && e.settle.None?)
      && (!g.doubled && chips >= g.bet ==>
            var v := HandValue(g.player + [g.deck[|g.deck| - 1]]);
            && e.relock && e.game.None?
            && (v > 21 ==> e.settle == Some(Lose))
            && (v <= 21 ==> e.reply.Finished? && e.reply.playerValue == v))
  {
    HandValueAtLeastCards(g.player);
  }

  // ----------------------------------------------------------------- ledger

  /** The balances after `validateAndLockBet(u, bet)`. */
  function Relock(balances: map<UserId, int>, u: UserId, bet: int): map<UserId, int> {
    var c := CheckBet(BalanceIn(balances, u), bet);
    if c.Accepted? && c.bet > 0 then Credited(balances, u, -c.bet) else balances
  }

  /** The balances after a button's effect: the second lock, then the settle closure. */
  function Book(balances: map<UserId, int>, u: UserId, g: Game, e: Effect): map<UserId, int> {
    var b := if e.relock then Relock(balances, u, g.bet) else balances;
    if e.settle.Some? then Credited(b, g.lock.user, Credit(e.settle.value, g.lock.bet)) else b
  }

  /**
    A doubled bet that wins only gives the stake back: the closures keep
    the first bet, so the win credits 2 x bet after 2 x bet was locked.
  */
  lemma DoubledWinBreaksEven(b: map<UserId, int>, u: UserId, bet: int)
    requires 0 < bet && 2 * bet <= BalanceIn(b, u) < TWO_31
    ensures var locked := Credited(b, u, -bet);
      BalanceIn(Credited(Relock(locked, u, bet), u, Credit(Win, bet)), u) == BalanceIn(b, u)
  {
    assert ToInt32(-bet) == -bet && ToInt32(bet) == bet && ToInt32(bet * 2) == bet * 2;
  }

  /** The dealer plays, the totals are judged and the settle closure is called. */
  method Resolve(db: Ledger, g: Game, value: int) returns (reply: Reply)
    requires AllValid(g.house) && AllValid(g.deck) && |g.house| + |g.deck| >= 17
    modifies db
    ensures var e := Stand(g, value, false);
      reply == e.reply && db.balances == Credited(old(db.balances), g.lock.user, Credit(e.settle.value, g.lock.bet))
  {
    var house, deck, houseValue := PlayDealer(g.house, g.deck);
    var o := Judge(value, houseValue);
    var _ := Settle(db, g.lock, o);
    reply := Finished(o, value, houseValue);
  }

  /** The three buttons on the live game `g` of user `u`: the new game (`None`: delete it) and the reply. */
  method PressGame(db: Ledger, u: UserId, g: Game, customId: string) returns (game: Option<Game>, reply: Reply)
    requires GameOk(g)
    modifies db
    ensures var e := Press(g, customId, BalanceIn(old(db.balances), u));
      game == e.game && reply == e.reply && db.balances == Book(old(db.balances), u, g, e)
  {
    HandValueAtLeastCards(g.player);
    if customId == "bj_hit" {
      var next := g.(player := g.player + [g.deck[|g.deck| - 1]], deck := g.deck[..|g.deck| - 1]);
      var value := ComputeHandValue(next.player);
      if value > 21 {
        var _ := Settle(db, g.lock, Lose);
        return None, Bust(value);
      }
      return Some(next), Drew(value);
    }
    if customId == "bj_stand" || g.done {
      var value := ComputeHandValue(g.player);
      reply := Resolve(db, g, value);
      return None, reply;
    }
    if customId == "bj_double" {
      game, reply := DoubleDown(db, u, g);
      return;
    }
    return Some(g), UnknownAction;
  }

  /** `bj_double`: refused when already doubled or short of chips; else lock again, draw one, decide. */
  method DoubleDown(db: Ledger, u: UserId, g: Game) returns (game: Option<Game>, reply: Reply)
    requires GameOk(g)
    modifies db
    ensures var e := DoubleEffect(g, BalanceIn(old(db.balances), u));
      game == e.game && reply == e.reply && db.balances == Book(old(db.balances), u, g, e)
  {
    HandValueAtLeastCards(g.player);
    var chips := db.Balance(u);
    if g.doubled {
      return Some(g), AlreadyDoubled;
    }
    if chips < g.bet {
      return Some(g), CannotDouble;
    }
    ghost var before := db.balances;
    var _ := ValidateAndLockBet(db, u, g.bet);
    assert db.balances == Relock(before, u, g.bet);
    ghost var locked := db.balances;
    var next := DoubledGame(g);
    var value := ComputeHandValue(next.player);
    if value > 21 {
      var _ := Settle(db, next.lock, Lose);
      assert db.balances == Credited(locked, g.lock.user, Credit(Lose, g.lock.bet));
      return None, Bust(value);
    }
    reply := Resolve(db, next, value);
    return None, reply;
  }

  /** Shuffle with `picks`, deal, and show the player's hand and the house's first card. */
  method NewGame(bet: int, lock: Lock, picks: seq<nat>) returns (g: Game, deck: seq<Card>, reply: Reply)
    requires ValidPicks(picks, 52)
    ensures |deck| == 52 && multiset(deck) == multiset(OrderedDeck())
    ensures g == Deal(deck, bet, lock) && GameOk(g)
    ensures reply == Started(g.player, g.house[0], HandValue(g.player))
  {
    deck := GetShuffledDeck(picks);
    g := Deal(deck, bet, lock);
    DealOk(deck, bet, lock);
    var value := ComputeHandValue(g.player);
    reply := Started(g.player, g.house[0], value);
  }

  /** Every stored game is in progress, belongs to its key, and has not been doubled. */
  ghost predicate SessionsOk(sessions: map<UserId, Game>) {
    forall u :: u in sessions ==> GameOk(sessions[u]) && sessions[u].lock.user == u && !sessions[u].doubled
  }

  /** Storing a game in progress for its own user keeps the map valid. */
  lemma StoreKeepsOk(sessions: map<UserId, Game>, u: UserId, g: Game)
    requires SessionsOk(sessions) && GameOk(g) && g.lock.user == u && !g.doubled
    ensures SessionsOk(sessions[u := g])
  {
  }

  /** The module-level `sessions` map: one game per user. */
  class Blackjack {
    var sessions: map<UserId, Game>

    ghost predicate Valid()
      reads this
    {
      SessionsOk(sessions)
    }

    constructor ()
      ensures sessions == map[] && Valid()
    {
      sessions := map[];
    }

    /**
      `/blackjack bet`: refused while the user has a game; otherwise the bet
      is locked and, if accepted, a game is dealt from a deck shuffled with
      `picks` (`deck` is that deck).
    */
    method Execute(db: Ledger, u: UserId, bet: int, picks: seq<nat>) returns (reply: Reply, deck: seq<Card>)
      requires Valid() && ValidPicks(picks, 52)
      modifies this, db
      ensures Valid()
      ensures u in old(sessions) ==> reply == InProgress && sessions == old(sessions) && db.balances == old(db.balances)
      ensures u !in old(sessions) ==>
        var c := CheckBet(BalanceIn(old(db.balances), u), bet);
        && (c.Rejected? ==> reply == BetRefused(c.error) && sessions == old(sessions) && db.balances == old(db.balances))
        && (c.Accepted? ==>
              && |deck| == 52 && multiset(deck) == multiset(OrderedDeck())
              && sessions == old(sessions)[u := Deal(deck, bet, Lock(u, c.bet))]
              && db.balances == Relock(old(db.balances), u, bet))
    {
      deck := [];
      if u in sessions {
        return InProgress, deck;
      }
      var c := ValidateAndLockBet(db, u, bet);
      assert db.balances == Relock(old(db.balances), u, bet);
      if c.Rejected? {
        return BetRefused(c.error), deck;
      }
      var g;
      g, deck, reply := NewGame(bet, Lock(u, c.bet), picks);
      StoreKeepsOk(sessions, u, g);
      sessions := sessions[u := g];
    }

    /** A button press (`bj_hit`, `bj_stand`, `bj_double`) on the user's game. */
    method Interact(db: Ledger, u: UserId, customId: string) returns (reply: Reply)
      requires Valid()
      modifies this, db
      ensures Valid()
      ensures u !in old(sessions) ==> reply == NoGame && sessions == old(sessions) && db.balances == old(db.balances)
      ensures u in old(sessions) ==>
        var g := old(sessions[u]);
        var e := Press(g, customId, BalanceIn(old(db.balances), u));
        && reply == e.reply
        && sessions == (if e.game.Some? then old(sessions)[u := e.game.value] else old(sessions) - {u})
        && db.balances == Book(old(db.balances), u, g, e)
    {
      if u !in sessions || sessions[u].done {
        return NoGame;
      }
      var g := sessions[u];
      PressSettlesOnce(g, customId, db.Balance(u));
      var game;
      game, reply := PressGame(db, u, g, customId);
      if game.Some? {
        StoreKeepsOk(sessions, u, game.value);
        sessions := sessions[u := game.value];
      } else {
        sessions := sessions - {u};
      }
    }
  }
}
