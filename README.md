# DENTL casino bot, modelled in Dafny

DENTL is a Discord bot that runs a small casino economy: every user has a
chip balance and an inventory in a SQLite ledger, plays Texas hold'em
poker, blackjack, roulette, slots and rock-paper-scissors against it,
claims daily and freebie chips, buys roles from a shop, trades five
simulated stocks, sells items back, and reads a leaderboard, a stats card
and replies in English or Japanese.

This project models the decision-making core of those commands. Discord
interactions become values (the options a command carries, the button id
pressed) and replies become datatypes; every random draw, clock reading
and SQLite result the code consumes is an input.

Modules, one per source file:

- `Wrappers`, `JsNum`: `Option`/`Result`, and the JavaScript number and
  string behaviour the code relies on: `x | 0` as 32-bit wrap-around,
  `parseInt`, `Number` of an integer string, `split`, `join`, `trim`,
  `padStart`, `replace`.
- `Db` (class `Ledger`): balances and inventory as maps, with the 32-bit
  `| 0` of `setBalance` and the clamping of `addBalance` at 0 written out.
- `Bets`: `validateAndLockBet` and `validateBet`, the stake locked up front
  and the win, loss and push settlements.
- `Shuffle`: Fisher-Yates in place on an array, driven by supplied picks,
  proved to yield a permutation.
- `PokerCards`, `PokerRules`, `PokerHand` (class `Hand`), `PokerFlow`,
  `PokerSession` (classes `Session`, `Poker`), `PokerLobby`: the hold'em
  table of `src/commands/poker.js`: seating, blinds, dealing, the turn
  search, the betting round test, the action buttons, each action's chip
  movement, street dealing, showdown, the end of a hand and the lobby
  commands (join, leave, start, end).
- `Blackjack` (class `Blackjack`): dealing, hand values with soft aces, hit,
  stand with the dealer drawing to 17, and double down.
- `RouletteTable`, `RouletteButtons`, `Roulette` (class `Roulette`): the
  numbers each bet covers, the payouts, the button ids and labels the
  follow-up screens build, and the spin that settles a bet.
- `Slots`: the weighted symbol draw, the 15-frame reel animation with its
  staggered stops, the payline tier and the settlement.
- `Rps`: the judge and the result text; the bot's random pick is an input.
- `Shop`, `Registry`: the role shop catalogue and the item/stock registry
  with its `itm:`/`stk:` inventory codes.
- `Stocks` (class `Market`): the state machine a tick drives, the
  injection rule for a collapsed price, buying, selling and resetting.
- `Sell`: selling an item back for its sell price.
- `Claims`: the daily and freebie replies and their `hh:mm:ss` countdown.
- `I18n` (class `Languages`): the language table and `t` with its
  `{name}` substitution.
- `Leaderboard`, `Stats`: the leaderboard query and board text, and the
  stats card with its win rate.

## Model

| member | source | states |
|---|---|---|
| Db.StoredBalance | src/economy/db.js:46-49 | `setBalance` stores `Math.max(0, amount \| 0)`: a value in 0..2^31-1, the amount itself when it fits, 0 for a negative 32-bit amount |
| Db.NextBalance | src/economy/db.js:50-53 | `addBalance`'s result is never negative nor above 2^31-1; it is balance + (delta \| 0) when that fits, 0 when it is not positive |
| Db.AddBalanceOverflowResets | src/economy/db.js:50-53 | a credit that takes the balance to 2^31 or beyond stores 0: `\| 0` turns the sum negative and `Math.max` resets it |
| Db.NextQty | src/economy/db.js:64-69 | `addItem`'s quantity is never negative; it is the holding + (delta \| 0) when that is not negative, else 0 |
| Db.Credited | src/economy/db.js:50-53 | crediting writes the user's `NextBalance` and leaves every other stored balance alone |
| Db.Ledger.constructor | src/economy/db.js:10-23 | both tables start empty and the ledger invariant (no negative balance or quantity) holds |
| Db.Ledger.Balance | src/economy/db.js:43-45 | a user without a row reads 0; in a valid ledger no balance is negative |
| Db.Ledger.Inventory | src/economy/db.js:61-63 | the inventory of a user holds exactly that user's rows with their quantities |
| Db.Ledger.Holding | src/economy/db.js:65 | a missing row reads 0; in a valid ledger no quantity is negative |
| Db.Ledger.SetBalance | src/economy/db.js:46-49 | the stored and returned balance is `StoredBalance(amount)`; nothing else changes; the invariant is kept |
| Db.Ledger.AddBalance | src/economy/db.js:50-53 | returns `NextBalance` of the old balance, writes only that user's balance, keeps the invariant |
| Db.Ledger.EnsureStarter | src/economy/db.js:54-58 | an existing row is returned unchanged; a new user gets `starter \| 0`, and nothing else changes |
| Db.Ledger.AddItem | src/economy/db.js:64-69 | returns and stores `NextQty` of the old holding, writes only that row, keeps the invariant |
| Db.Ledger.SetItem | src/economy/db.js:70-73 | stores and returns `Math.max(0, qty \| 0)` for that row only |
| Bets.CheckBet | src/economy/bets.js:3-15 | a bet is accepted exactly when `bet \| 0` is between 0 and the balance, and then it is that value; a negative bet and a bet above the balance give their own rejections |
| Bets.Credit | src/economy/bets.js:20-24 | the settle callbacks credit 0 on a loss and at most twice the bet |
| Bets.SettleNet | src/economy/bets.js:16-24 | lock then settle changes the balance by exactly +bet on a win, 0 on a tie, -bet on a loss, when nothing overflows |
| Bets.WinOfHugeBetZeroesBalance | src/economy/bets.js:16-21 | as written, winning an accepted bet of 2^30 with a balance of 2^30 leaves a balance of 0: the 2^31 credit wraps in `addBalance` |
| Bets.ValidateAndLockBet | src/economy/bets.js:3-26 | the verdict is `CheckBet` on the old balance; an accepted positive bet is debited from that user only; otherwise nothing changes |
| Bets.Settle | src/economy/bets.js:20-24 | settling credits `Credit(outcome, bet)` to the locked user through `addBalance` and changes nothing else |
| Bets.ValidateBet | src/economy/bets.js:28-42 | the same verdict as `CheckBet`, without touching the ledger |
| Shuffle.ShuffleInPlace | src/commands/poker.js:22-25 | the in-place Fisher-Yates loop, with the random index as a pick, permutes the array |
| Shuffle.Shuffled | src/commands/blackjack.js:11-15 | the shuffled copy is a permutation of the deck, without repeats when the deck has none |
| Shuffle.PermutationKeepsDistinct | src/commands/poker.js:22-25 | a permutation of a list without repeats has none |
| PokerCards.OrderedDeck | src/commands/poker.js:17-21 | the unshuffled deck holds 52 cards, card i being rank i mod 13 followed by suit i div 13 |
| PokerCards.RankValue | src/commands/poker.js:29-36 | `cardValue` of the r-th rank, whatever the suit, is r + 2: 2..10 by `parseInt`, J 11, Q 12, K 13, A 14 |
| PokerCards.DeckCardValues | src/commands/poker.js:17-36 | every card of the deck has a value, between 2 and 14 |
| PokerCards.OrderedDeckDistinct | src/commands/poker.js:17-21 | the 52 cards built by the nested loops are pairwise different |
| PokerCards.EvaluateHand | src/commands/poker.js:38-42 | the score is NaN/-Infinity (None) exactly when there are no cards or some card has no value; otherwise it is the value of one of the cards and no card is worth more |
| PokerCards.CreateDeck | src/commands/poker.js:17-27 | the shuffled deck is a permutation of the 52 built cards: 52 different cards, each worth 2..14 |
| PokerRules.IndexOfId | src/commands/poker.js:229 | `players.find` by id: -1 exactly when the id is not seated, otherwise the first seat holding it |
| PokerRules.FindPlayer | src/commands/poker.js:229 | a player is found exactly when the id is seated, and it is a seat with that id |
| PokerRules.RotationIsPermutation | src/commands/poker.js:103-106 | the action order of `setupHand` is a permutation of the seated ids, without repeats when the seats have none |
| PokerRules.SetupOrder | src/commands/poker.js:103-106 | the `for` loop pushes every seat starting after the dealer, which is a permutation of the seated ids |
| PokerRules.SumBetsAdd | src/commands/poker.js:432-435 | adding x to the bet of one player in the order adds x to the sum of the bets (the pot stays their sum) |
| PokerRules.SumBetsOfTwo | src/commands/poker.js:188-192 | the two blinds alone sum to their total, so `pot = 150` is the sum of `bets` |
| PokerRules.MaxBet | src/commands/poker.js:414-415 | the largest street bet: 0 for no bets, otherwise one of the bets and at least every bet |
| PokerRules.MaxBetUnique | src/commands/poker.js:414-415 | any value that is one of the bets (0 for none) and bounds them all is that largest bet |
| PokerRules.SeqMax | src/commands/poker.js:272-273 | `activeBets.length > 0 ? Math.max(...) : 0`: 0 for none, otherwise a member that bounds all |
| PokerRules.Eligible | src/commands/poker.js:252-256 | a player is eligible exactly when seated, not folded, not all-in and with chips |
| PokerRules.StreetBets | src/commands/poker.js:272 | each eligible player's street bet, `currentBets[id] || 0`, in order |
| PokerRules.AllAtMaxIffEqual | src/commands/poker.js:273-274 | every bet equals the maximum exactly when all bets are equal |
| PokerRules.IsBettingRoundComplete | src/commands/poker.js:245-277 | the round is complete exactly when at most one player is eligible, or every eligible player has a move and all their street bets are equal |
| PokerRules.CheckOrCall | src/commands/poker.js:300-315 | check is offered exactly when nothing is owed; call exactly when something is owed and the stack covers it; never both |
| PokerRules.Raises | src/commands/poker.js:317-342 | the 1x (2x) raise is offered exactly when the stack exceeds the call and covers the call plus one (two) minimum raises |
| PokerRules.ActionButtons | src/commands/poker.js:280-355 | fold first, at most five buttons, and a button is offered exactly when it is fold, a check/call or raise button offered above, or all-in for a stack with chips |
| PokerRules.ButtonsOffered | src/commands/poker.js:290-354 | the offered buttons case by case: check iff nothing owed, call iff owed and covered, each raise iff affordable, all-in iff chips, nothing else |
| PokerRules.RaiseMultiplier | src/commands/poker.js:864-867 | the multiplier of a raise id is always 1, 2, 3 or 5 |
| PokerRules.Decide | src/commands/poker.js:851-875 | fold, call and all-in are performed with amount 0; a check is performed when nothing is owed and refused exactly when something is; a `poker_raise_` id raises by `toCall + minRaise * multiplier` when the stack covers it and is refused otherwise; every other id is ignored, and only those |
| PokerRules.OfferedButtonsAccepted | src/commands/poker.js:280-355 | each button `createActionButtons` offers leads `interact` to its own action: fold, check, call and all-in with amount 0, a 1x or 2x raise by `toCall + minRaise` times its multiplier; none is refused |
| PokerRules.RaiseAccepted | src/commands/poker.js:280-355 | an offered 1x or 2x raise button is performed as a raise of `toCall + minRaise` times its multiplier |
| PokerRules.Moved | src/commands/poker.js:419-471 | fold and check move no chips; a call moves between 0 and the smaller of the stack and what is owed, and when positive one of the two; all-in empties the stack |
| PokerRules.GoesAllIn | src/commands/poker.js:437-463 | all-in always marks the player; any other action only when it empties the stack |
| PokerRules.CallIsCapped | src/commands/poker.js:429-441 | a call by a player with chips never makes the stack negative, marks the player all-in exactly when what is owed is at least the stack, and brings the street bet to the smaller of the top bet and bet + stack |
| PokerRules.Scan | src/commands/poker.js:226-238 | the search index always stays inside the action order |
| PokerRules.AdvanceWraps | src/commands/poker.js:236 | k steps of `(i + 1) % n` from seat i, with k at most n, land on i + k, wrapped once |
| PokerRules.ScanExhaustedSkipped | src/commands/poker.js:227-241 | when the search runs out, every seat it passed could not act |
| PokerRules.ScanOutcome | src/commands/poker.js:226-241 | the search stops on a player who may act, crashes on a missing player, and runs out with at least one step per seat only when nobody in the order may act |
| PokerRules.Unwrap | src/commands/poker.js:526 | the cards of a list without `undefined` entries, position by position |
| PokerRules.Leader | src/commands/poker.js:521-534 | the showdown loop's (bestScore, winner): none exactly when no score beats -1; otherwise the winner's score, no score above it, and every earlier score strictly below it (first best wins) |
| PokerHand.AfterPops | src/commands/poker.js:196-197 | k pops leave max(0, n - k) cards |
| PokerHand.Pops | src/commands/poker.js:493 | k pops return k cards, the i-th being the (i+1)-th from the top |
| PokerHand.PopsCompose | src/commands/poker.js:196-197 | popping k then j cards is popping k + j, and the j-th card after k pops is the (k+j)-th card |
| PokerHand.ActConservesChips | src/commands/poker.js:419-471 | what an action takes from the stack is what the pot and the player's `bets` gain, the hand stays well-formed (pot = sum of bets), and no other player's bets change |
| PokerHand.PassKeepsOk | src/commands/poker.js:409-476 | recording a move and passing the turn keeps the hand well-formed |
| PokerHand.PutInKeepsOk | src/commands/poker.js:432-435 | putting chips in keeps pot = sum of bets and touches only that player's bets |
| PokerHand.ActBookkeeping | src/commands/poker.js:409-471 | every action records its move; fold only adds the folder; check moves nothing; a raise leaves only the raiser's move and sets `minRaise` to the raise over the call; all-in marks the player and resets the moves exactly when it raises |
| PokerHand.CallAllInExactlyWhenEmptied | src/commands/poker.js:429-441 | a call never leaves a stack with chips negative, and marks the player all-in exactly when it empties the stack |
| PokerHand.DealStreetAdvances | src/commands/poker.js:490-512 | a new street is one phase further, the board grows by the popped cards to 3, 4 then 5, chips and folds are unchanged, and street bets, moves and turn are reset |
| PokerHand.HoleCardsForDeals | src/commands/poker.js:195-200 | for distinct players the deal loop gives each player their own two consecutive pops and nobody else cards |
| PokerHand.DealtHoleCardsDefined | src/commands/poker.js:195-200 | with two cards per player left in a deck without repeats, every hole card is a real card from the top, and no card is dealt twice |
| PokerHand.Hand.constructor | src/commands/poker.js:102-125 | `setupHand`: preflop, empty board, pot, bets and moves, the rotated action order, `minRaise` at the big blind, and a fresh 52-card permutation as deck; with distinct player ids the hand is well-formed (`Valid`) |
| PokerHand.Hand.Pop | src/commands/poker.js:196 | `deck.pop()` returns the top card and removes it |
| PokerHand.Hand.DealHoleCards | src/commands/poker.js:195-200 | two pops per player, in seat order, stored as that player's hole cards |
| PokerHand.Hand.PostBlinds | src/commands/poker.js:188-192 | the blinds are the two seats' street and hand bets and the pot is exactly 150; nothing else changes |
| PokerHand.Hand.NextToAct | src/commands/poker.js:226-238 | the search loop returns what `Scan` finds and leaves the turn where it stopped, nothing else changed |
| PokerHand.Hand.MaxCurrentBet | src/commands/poker.js:414-415 | the loop returns the largest street bet (0 for none) |
| PokerHand.Hand.Record | src/commands/poker.js:409-476 | the chips moved and the new hand are those of `Act`, and the hand stays well-formed |
| PokerHand.Hand.DealBoard | src/commands/poker.js:493-501 | the board grows by k pops from the top, in order |
| PokerHand.Hand.ResetRound | src/commands/poker.js:509-512 | street bets and moves are emptied and the turn goes back to seat 0 |
| PokerHand.Hand.NextStreet | src/commands/poker.js:490-512 | the hand becomes `DealStreet` of itself and stays well-formed |
| PokerFlow.Filter | src/commands/poker.js:162 | `filter`: a player is kept exactly when seated and the test holds |
| PokerFlow.FilterKeepsDistinct | src/commands/poker.js:162 | filtering never makes an id appear twice |
| PokerFlow.WithChips | src/commands/poker.js:550 | exactly the seats with chips stay, without new or repeated ids |
| PokerFlow.Staying | src/commands/poker.js:162 | exactly the seats whose id is not on the leave list stay, without new or repeated ids |
| PokerFlow.TakeAtSum | src/commands/poker.js:186-187 | taking x from one seat takes x from the table's total |
| PokerFlow.AddToStackSum | src/commands/poker.js:539 | the winner's stack and the table's total grow by exactly x |
| PokerFlow.TakeFromStackSum | src/commands/poker.js:432-459 | the acting player's stack and the table's total shrink by exactly x |
| PokerFlow.SettleAllCredits | src/commands/poker.js:572-577 | settling credits each seated player exactly `stack - buyIn`, through `addBalance`'s reset |
| PokerFlow.SettleAllSkips | src/commands/poker.js:572-577 | settling leaves everybody without a seat unpaid |
| PokerFlow.PayLeaversPays | src/commands/poker.js:151-161 | a leaver found with chips is paid `stack - buyIn`; a leaver with an empty stack or no seat, and everybody else, keep their balance |
| PokerFlow.SeatAll | src/commands/poker.js:130-148 | seating keeps the old seats in front and adds only waiting users whose balance covers 1000, each with stack = buyIn = balance, seat = index and name `Player<index>` |
| PokerFlow.SeatAllSeatsFunded | src/commands/poker.js:130-147 | every waiting user with a balance of at least 1000 is seated |
| PokerFlow.SeatAllApart | src/commands/poker.js:130-147 | seating a waiting list apart from the table seats nobody twice |
| PokerFlow.EndHand | src/commands/poker.js:543-564 | exactly the players with chips stay; the game ends exactly when fewer than two are left, else the next hand is scheduled without touching the ledger |
| PokerFlow.BustedLeaveUnsettled | src/commands/poker.js:543-556 | a player who busts out is removed without being settled: their balance stays what it was before the game |
| PokerFlow.WinnerIndex | src/commands/poker.js:517-534 | no winner exactly when a score crashes or none beats -1; otherwise the first player with the best score |
| PokerFlow.LeaderStep | src/commands/poker.js:530-533 | one more loop step takes a score only when strictly greater |
| PokerFlow.WinnerIndexLoop | src/commands/poker.js:525-534 | the loop's outcome is the leader of all scores, or none when one crashes |
| PokerFlow.Winner | src/commands/poker.js:517-534 | a winner is a seated player who has not folded |
| PokerFlow.ShowdownPaysWinner | src/commands/poker.js:517-541 | the winner's stack and the table total grow by exactly the pot (which is not emptied), then `endHand` runs |
| PokerFlow.FoldWinUnpaid | src/commands/poker.js:480-564 | when everybody else folded, the hand ends with no stack paid: every remaining player has the stack they had, and the pot is lost |
| PokerFlow.Acted | src/commands/poker.js:399-476 | after the action the turn still points into the action order |
| PokerFlow.ActedConservesChips | src/commands/poker.js:399-476 | stacks + pot is unchanged by an action, the player's stack + bets is unchanged, and the hand stays well-formed |
| PokerFlow.Blinded | src/commands/poker.js:177-192 | after the blinds the turn points into the action order |
| PokerFlow.BlindsPosted | src/commands/poker.js:177-200 | the blinds come from two different seats, stacks + pot is unchanged, the action order is a permutation of the seats, and each player holds the next two pops |
| PokerFlow.OpeningOk | src/commands/poker.js:102-200 | the opened hand is well-formed, its order is every seat once, the pot is exactly the blinds and each player got their two pops |
| PokerFlow.AdvanceTurnSound | src/commands/poker.js:216-242 | `advanceTurn` keeps the hand well-formed, touches the ledger only when the game ends, and prompts only the player whose turn it is, who may act, while the round is open |
| PokerFlow.CompleteRoundSound | src/commands/poker.js:480-515 | the same guarantees for `completeBettingRound` |
| PokerFlow.AdvanceTurnKept | src/commands/poker.js:216-242 | the turn loop seats nobody new, never seats anybody twice, and leaves waiting list and dealer alone |
| PokerFlow.CompleteRoundKept | src/commands/poker.js:480-564 | the same for completing a round, showdown and end of hand |
| PokerFlow.PlayerActionOk | src/commands/poker.js:399-478 | an action keeps the table invariant: seats and waiting list apart, dealer a seat number, hand well-formed |
| PokerFlow.DealOk | src/commands/poker.js:177-212 | dealing to two or more distinct players keeps the table invariant |
| PokerFlow.StartHandOk | src/commands/poker.js:128-213 | `startHand` keeps the table invariant: the waiting list is seated without repeats and emptied, and a dealt hand is well-formed |
| PokerSession.FindWinner | src/commands/poker.js:521-534 | the scoring loop returns `WinnerIndex`: the first best score, or none |
| PokerSession.ScoreLoop | src/commands/poker.js:521-534 | the loop over the unfolded players gives -1 when a score crashes it, otherwise the seat of the first strictly best score |
| PokerSession.OpenHand | src/commands/poker.js:102-200 | the opened hand is `Opening` for the shuffled deck, a 52-card permutation without repeats |
| PokerSession.Session.constructor | src/commands/poker.js:87-100 | `blankSession`: a waiting table without players, lists or hand |
| PokerSession.Session.EndGameAndSettle | src/commands/poker.js:566-590 | the table is ended and the ledger is the old one with every seat settled `stack - buyIn` |
| PokerSession.Session.EndHand | src/commands/poker.js:543-564 | table, ledger and progress are those of `PokerFlow.EndHand` |
| PokerSession.Session.Showdown | src/commands/poker.js:517-541 | table, ledger and progress are those of `PokerFlow.Showdown` |
| PokerSession.Session.AdvanceTurn | src/commands/poker.js:216-242 | table, ledger and progress are those of `PokerFlow.AdvanceTurn` |
| PokerSession.Session.CompleteBettingRound | src/commands/poker.js:480-515 | table, ledger and progress are those of `PokerFlow.CompleteRound` |
| PokerSession.Session.HandlePlayerAction | src/commands/poker.js:399-478 | table, ledger and progress are those of `PokerFlow.PlayerAction` |
| PokerSession.Session.SeatWaiting | src/commands/poker.js:130-148 | the seats become `SeatAll` of the waiting list, which is emptied |
| PokerSession.Session.PayOutLeavers | src/commands/poker.js:151-161 | the ledger becomes `PayLeavers` of the old one |
| PokerSession.Session.PostBlinds | src/commands/poker.js:177-200 | the table becomes `Blinded` for the shuffled deck |
| PokerSession.Session.Deal | src/commands/poker.js:177-212 | table, ledger and progress are those of `PokerFlow.Deal` |
| PokerSession.Session.Regroup | src/commands/poker.js:129-163 | the waiting list is seated, the leavers paid and removed, both lists emptied, and nobody sits twice |
| PokerSession.Session.StartHand | src/commands/poker.js:128-213 | table, ledger and progress are those of `PokerFlow.StartHand`, and the session invariant is kept |
| PokerSession.Poker.constructor | src/commands/poker.js:14 | there is no session at first |
| PokerSession.Poker.HandleJoin | src/commands/poker.js:600-710 | session, ledger and reply are those of `PokerLobby.HandleJoin`, invariant kept |
| PokerSession.Poker.HandleLeave | src/commands/poker.js:712-745 | session, ledger and reply are those of `PokerLobby.HandleLeave`, invariant kept |
| PokerSession.Poker.HandleStart | src/commands/poker.js:747-781 | session, ledger and reply are those of `PokerLobby.HandleStart`, invariant kept |
| PokerSession.Poker.HandleEnd | src/commands/poker.js:783-820 | session, ledger and reply are those of `PokerLobby.HandleEnd`, invariant kept |
| PokerSession.Poker.Interact | src/commands/poker.js:823-881 | session, ledger and reply are those of `PokerLobby.Interact`, invariant kept |
| PokerSession.Poker.Play | src/commands/poker.js:399-478 | session, ledger and reply follow `PlayerAction`; the game's end drops the session |
| PokerSession.Poker.Resume | src/commands/poker.js:559-563 | session, ledger and reply are those of `PokerLobby.Resume`, invariant kept |
| PokerLobby.Blank | src/commands/poker.js:87-100 | a blank session satisfies the table invariant |
| PokerLobby.Without | src/commands/poker.js:741 | the waiting list keeps exactly the other users, without repeats if it had none |
| PokerLobby.Unseat | src/commands/poker.js:738 | exactly the other seats stay, without new or repeated ids |
| PokerLobby.HandleJoin | src/commands/poker.js:600-710 | the ledger is untouched; low balance exactly below 1000; already in exactly when seated or waiting; a full table has 8 players; seating appends the user with buyIn = stack = balance to a waiting table under 8 |
| PokerLobby.HandleJoinOk | src/commands/poker.js:600-710 | joining keeps the session invariant and never seats a ninth player |
| PokerLobby.HandleLeave | src/commands/poker.js:712-745 | no session, not in game: nothing changes; during a game the user is added to the leave list once; otherwise a seated user leaves the lobby and a waiting user the waiting list |
| PokerLobby.HandleLeaveOk | src/commands/poker.js:712-745 | leaving keeps the session invariant |
| PokerLobby.HandleStart | src/commands/poker.js:747-781 | the game starts exactly for a waiting lobby of two or more with a thread, and only its status changes; otherwise nothing changes |
| PokerLobby.HandleEnd | src/commands/poker.js:783-820 | the game ends exactly for an admin and an active session; the session is dropped and every seat settled; otherwise nothing changes |
| PokerLobby.HandleEndSettles | src/commands/poker.js:800-804 | every seated player of an ended game is credited `stack - buyIn` through the ledger's reset |
| PokerLobby.Resume | src/commands/poker.js:559-563 | a timer finding no session or a session that is not active does nothing; an active session becomes what `startHand` leaves (dropped when the game is over), with its ledger, and the reply fails exactly when that hand could not go on |
| PokerLobby.ResumeOk | src/commands/poker.js:559-563 | a timer starting the next hand keeps the session invariant |
| PokerLobby.Interact | src/commands/poker.js:823-881 | no hand: nothing changes; only the player in turn gets past the turn check; a check is refused exactly when the press is the player in turn's and `Pressed` refuses it, and likewise a raise; refusals change nothing; a raise by a user who is not seated fails and changes nothing; an accepted press gives `handlePlayerAction`'s table (dropped when the game is over) and ledger |
| PokerLobby.InteractOk | src/commands/poker.js:823-881 | a button press keeps the session invariant |
| Blackjack.OrderedDeck | src/commands/blackjack.js:8-11 | the unshuffled deck holds 52 cards, card i being suit i div 13 and rank i mod 13 |
| Blackjack.OrderedDeckDistinct | src/commands/blackjack.js:8-11 | the 52 built cards are pairwise different and every number rank is 2..10 |
| Blackjack.GetShuffledDeck | src/commands/blackjack.js:7-17 | the shuffled deck is a permutation of the 52 built cards, without repeats |
| Blackjack.Reduce | src/commands/blackjack.js:26 | the ace loop lowers the value by tens, at most one per ace, and stops at 21 or below or when the aces are used up; it never lowers a value to 11 or less |
| Blackjack.HandValueIsBest | src/commands/blackjack.js:19-28 | `handValue` is the total with some number of aces counted as 1, the largest such total not above 21, and the all-ones total when every choice busts |
| Blackjack.HandValueAtLeastCards | src/commands/blackjack.js:19-28 | a hand is worth at least one point per card |
| Blackjack.TwoCardsAtMost21 | src/commands/blackjack.js:19-28 | a two-card hand never busts, so a fresh deal never busts |
| Blackjack.ComputeHandValue | src/commands/blackjack.js:19-28 | the two loops return `HandValue` |
| Blackjack.DealerDraw | src/commands/blackjack.js:122-126 | the dealer ends with at least 17, keeping the hand it had and drawing from the end of the deck |
| Blackjack.DealerDrawsBelow17 | src/commands/blackjack.js:123-126 | the dealer stands on 17 or more without drawing, and draws each card only while below 17 |
| Blackjack.DealerDrawsFromTop | src/commands/blackjack.js:124 | the i-th drawn card is the i-th `pop()` of the deck |
| Blackjack.PlayDealer | src/commands/blackjack.js:122-126 | the `while (houseValue < 17)` loop returns `DealerDraw` and the final value |
| Blackjack.Judge | src/commands/blackjack.js:134-143 | win exactly when the house busts or the player is higher; tie exactly when the house does not bust and the values are equal; lose otherwise |
| Blackjack.Deal | src/commands/blackjack.js:62-64 | dealing takes two cards each from the deck, leaving 48, and the three piles together are the deck |
| Blackjack.DealOk | src/commands/blackjack.js:62-68 | a fresh game is well-formed: two house cards, 52 cards in all, the player not bust, not done |
| Blackjack.PressSettlesOnce | src/commands/blackjack.js:82-216 | each button either keeps the game going (still well-formed, same lock, same doubled flag) or settles it once; a second lock happens only on a first double with enough chips |
| Blackjack.HitBustLoses | src/commands/blackjack.js:95-119 | a hit draws the top card; the game is lost exactly when that busts, otherwise it goes on with that card added |
| Blackjack.StandJudges | src/commands/blackjack.js:121-149 | standing ends the game: the dealer draws to 17 or more, and the outcome is `Judge` of the two values |
| Blackjack.DoubleDrawsOne | src/commands/blackjack.js:151-209 | an already doubled game or too few chips change nothing; otherwise the stake is locked again, one card is drawn and the game ends, lost on a bust, otherwise judged on that value |
| Blackjack.DoubledWinBreaksEven | src/economy/bets.js:20-21 | as written, winning a doubled game returns the player only to where they started: the win credits twice the original bet, not twice the doubled one |
| Blackjack.Resolve | src/commands/blackjack.js:121-149 | the reply and the ledger are those of `Stand`: the outcome's credit of the original bet goes to the locked user |
| Blackjack.PressGame | src/commands/blackjack.js:82-216 | game, reply and ledger are those of `Press` on the player's current balance |
| Blackjack.DoubleDown | src/commands/blackjack.js:151-209 | game, reply and ledger are those of the double branch on the player's current balance |
| Blackjack.NewGame | src/commands/blackjack.js:62-79 | the game is dealt from a permutation of the 52 cards, well-formed, and the reply shows the hand, the first house card and the hand's value |
| Blackjack.StoreKeepsOk | src/commands/blackjack.js:66-68 | storing a well-formed game under its own user keeps every stored game well-formed |
| Blackjack.Blackjack.constructor | src/commands/blackjack.js:5 | there are no sessions at first |
| Blackjack.Blackjack.Execute | src/commands/blackjack.js:43-80 | a user with a game gets "in progress" and nothing changes; a refused bet changes nothing; an accepted bet is locked and a dealt game stored for the user |
| Blackjack.Blackjack.Interact | src/commands/blackjack.js:82-216 | no game: nothing changes; otherwise reply, stored game (removed once settled) and ledger follow `Press` |
| RouletteTable.Wheel | src/commands/roulette.js:231-234 | the wheel has 38 pockets: 0, 00, then 1..36 |
| RouletteTable.WheelPockets | src/commands/roulette.js:232 | a pocket is on the wheel exactly when it is 00 or a number 0..36 |
| RouletteTable.RedBlackPartition | src/commands/roulette.js:238-239 | the red and black lists hold 18 numbers each and split 1..36 by the table's colouring rule |
| RouletteTable.ColumnCovers | src/commands/roulette.js:257-259 | column n holds exactly the numbers 1..36 that are n modulo 3 |
| RouletteTable.KindOf | src/commands/roulette.js:275-281 | a bet type is known exactly when it names one of the twelve paying bets |
| RouletteTable.EvenMoneyBets | src/commands/roulette.js:242-245 | red, black, 1-18 and 19-36 cover exactly the numbers their names say, whatever the selection |
| RouletteTable.DozenAndColumnBets | src/commands/roulette.js:251-260 | dozen n covers 12(n-1)+1..12n and column n the numbers of its residue |
| RouletteTable.StreetBet | src/commands/roulette.js:261-263 | a street from t covers t, t+1, t+2 |
| RouletteTable.LineBet | src/commands/roulette.js:264-266 | a line from t covers the six numbers t..t+5 |
| RouletteTable.CornerBet | src/commands/roulette.js:267-269 | a corner from t covers t, t+1, t+3, t+4 |
| RouletteTable.InsideBetsOnNaN | src/commands/roulette.js:261-269 | a selection `parseInt` cannot read makes street, line and corner cover only NaN, which no pocket equals |
| RouletteTable.Payout | src/commands/roulette.js:275-282 | the payout is positive exactly for a known bet type (`|| 0` otherwise) |
| RouletteTable.OutsidePayoutFromCoverage | src/commands/roulette.js:238-281 | every outside bet pays 36 / (numbers covered) - 1 to one |
| RouletteTable.InsidePayoutFromCoverage | src/commands/roulette.js:247-281 | every inside bet (single, two-number split, street, line, corner) pays 36 / (numbers covered) - 1 to one |
| RouletteTable.AdjacentIffNeighbours | src/commands/roulette.js:486-494 | the split check (same row and one apart, or three apart) holds exactly for numbers side by side or one above the other on the table |
| RouletteTable.SingleCoversOnePocket | src/commands/roulette.js:442-461 | an accepted single entry covers exactly the one pocket typed, and that pocket is on the wheel |
| RouletteTable.SplitCoversTwoNeighbours | src/commands/roulette.js:464-504 | an accepted split entry covers exactly the two typed numbers, both in 1..36 and adjacent on the table |
| RouletteTable.SplitSelectionCovers | src/commands/roulette.js:249-250 | the selection `a,b` built for a split reads back as exactly the pockets a and b |
| RouletteButtons.LabelNumbers | src/commands/roulette.js:135-188 | a button label starts at the button's own number and stays within five of it |
| RouletteButtons.SelectionOf | src/commands/roulette.js:412-413 | `parts[3]` exists exactly when the id has four parts, and never holds an underscore |
| RouletteButtons.SelectIdRoundTrip | src/commands/roulette.js:412-413 | the selection read back from a `roulette_select_<kind>_<n>` id is n |
| RouletteButtons.PickParses | src/commands/roulette.js:134 | `parseInt` of the selection of a number button is the button's number |
| RouletteButtons.DashedReadsBack | src/commands/roulette.js:135-188 | a dashed label splits back into the numbers it was built from |
| RouletteButtons.PickLabelReadsBack | src/commands/roulette.js:135-188 | each number button's label lists the numbers of its bet |
| RouletteButtons.TypeButtons | src/commands/roulette.js:43-95 | three rows of four type buttons, in the order of the bet list |
| RouletteButtons.TypeButtonsNameEveryBet | src/commands/roulette.js:43-95 | a type is offered by a button exactly when it has a payout, and no two type buttons share an id |
| RouletteButtons.Streets | src/commands/roulette.js:129-138 | twelve street buttons, the k-th starting at 3k+1 |
| RouletteButtons.Lines | src/commands/roulette.js:152-159 | eleven line buttons at the listed starts |
| RouletteButtons.Corners | src/commands/roulette.js:173-192 | twenty-two corner buttons, the k-th at 3(k div 2) + 1 + k mod 2 |
| RouletteButtons.ChunksFlatten | src/commands/roulette.js:141-201 | the rows of five hold all the buttons in order, each row holding one to five |
| RouletteButtons.StreetButtons | src/commands/roulette.js:129-138 | the `for` loop builds `Streets` |
| RouletteButtons.CornerRow | src/commands/roulette.js:179-191 | the inner loop builds the two corners of a row |
| RouletteButtons.CornerButtons | src/commands/roulette.js:178-192 | the nested loops build `Corners` |
| RouletteButtons.Rows | src/commands/roulette.js:141-147 | the row loop splits the buttons into rows of five |
| RouletteButtons.FollowUpButtons | src/commands/roulette.js:98-207 | the follow-up rows of every bet type, empty for types without buttons |
| RouletteButtons.StreetButtonCovers | src/commands/roulette.js:129-138 | each street button covers a whole row of the table, the numbers its label shows |
| RouletteButtons.LineButtonCovers | src/commands/roulette.js:152-266 | each line button covers two whole neighbouring rows |
| RouletteButtons.CornerButtonCovers | src/commands/roulette.js:173-269 | each corner button covers a 2x2 square of the table, the numbers its label shows |
| RouletteButtons.CornerStartsExactly | src/commands/roulette.js:178-180 | the corner starts are exactly the numbers 1..32 outside the right column, in increasing order |
| RouletteButtons.DozenButtonSelects | src/commands/roulette.js:106-108 | the n-th dozen button selects n |
| RouletteButtons.ColumnButtonSelects | src/commands/roulette.js:120-122 | the n-th column button selects n |
| Roulette.SpinSettles | src/commands/roulette.js:285-311 | a spin wins exactly when the pocket is among the covered numbers; the session ends; a win credits bet x payout, a loss debits the bet, through `addBalance`; nobody else's balance changes |
| Roulette.UnknownTypeLoses | src/commands/roulette.js:270-281 | an unknown bet type covers nothing, so it always loses the bet |
| Roulette.ExecuteOnlyOpensOrCloses | src/commands/roulette.js:315-346 | `/roulette` never touches balances; an open game is ended; otherwise a session opens exactly when the bet is between 0 and the balance |
| Roulette.ModalRefusalEndsSession | src/commands/roulette.js:442-505 | a refused single or split entry ends the session without touching balances |
| Roulette.ModalPlays | src/commands/roulette.js:442-505 | an accepted entry plays the game with the typed selection |
| Roulette.SingleWinsIffHit | src/commands/roulette.js:442-461 | a single bet wins exactly when the wheel shows the typed pocket, paying 35 times the bet |
| Roulette.SplitWinsIffHit | src/commands/roulette.js:464-504 | a split bet wins exactly when the wheel shows one of the two typed numbers, paying 17 times the bet |
| Roulette.SelectAfterType | src/commands/roulette.js:363-417 | choosing a button bet offers its buttons without touching balances, and a selection then plays that type with that selection |
| Roulette.StreetRound | src/commands/roulette.js:363-417 | choosing street offers the k-th street button, and pressing it wins exactly when the pocket is in its label's numbers |
| Roulette.CornerRound | src/commands/roulette.js:363-417 | choosing corner offers the k-th corner button, and pressing it wins exactly when the pocket is in its label's numbers |
| Roulette.SelectAfterModalType | src/commands/roulette.js:363-417 | after choosing single or split, a select button still plays with the recorded type |
| Roulette.StaleSelectPlaysRecordedType | src/commands/roulette.js:365-416 | as written, a stale `roulette_select_dozen_2` pressed after choosing single plays a single bet on 2 |
| Roulette.GameOthersUnchanged | src/commands/roulette.js:285-311 | a spin changes only the player's own session and balance |
| Roulette.ExecuteOthersUnchanged | src/commands/roulette.js:315-346 | `/roulette` changes only the caller's session and balance |
| Roulette.InteractOthersUnchanged | src/commands/roulette.js:348-424 | a button changes only the presser's session and balance |
| Roulette.ModalOthersUnchanged | src/commands/roulette.js:427-506 | a modal submission changes only the submitter's session and balance |
| Roulette.Roulette.constructor | src/commands/roulette.js:40 | there are no sessions at first |
| Roulette.Roulette.PlayGame | src/commands/roulette.js:285-311 | sessions, ledger and reply are those of `GameStep` |
| Roulette.Roulette.Execute | src/commands/roulette.js:315-346 | sessions and reply are those of `ExecuteStep` and the ledger is not touched |
| Roulette.Roulette.Interact | src/commands/roulette.js:348-424 | sessions, ledger and reply are those of `InteractStep` |
| Roulette.Roulette.ModalSubmit | src/commands/roulette.js:427-506 | sessions, ledger and reply are those of `ModalStep` |
| Slots.WeightsSum | src/commands/slots.js:10-19 | the running weight sums end at the total weight, 110, each step adding one symbol's weight |
| Slots.RandSymbol | src/commands/slots.js:21-28 | the loop returns the symbol whose band of cumulative weight holds the random number r |
| Slots.ShiftColumn | src/commands/slots.js:35-37 | a shifted column has the new symbol on top and the old top and middle below it |
| Slots.TierCountsRepeats | src/commands/slots.js:39-49 | the tier is 3 minus the number of different symbols on the payline: 2 for three alike, 1 for a pair, 0 otherwise |
| Slots.TierReadsPaylineOnly | src/commands/slots.js:39-49 | the tier depends only on the middle row |
| Slots.Frame | src/commands/slots.js:106-112 | a frame keeps three columns of three and uses one draw per reel still moving |
| Slots.Animate | src/commands/slots.js:102-112 | after n frames the reels are still three columns of three and `Used(n)` draws are consumed |
| Slots.FrameAdvances | src/commands/slots.js:102-112 | frame n turns the reels after n - 1 frames into the reels after n frames |
| Slots.AnimateShape | src/commands/slots.js:102-112 | after n frames each reel is its first column shifted by its own draws, in order |
| Slots.PaylineIsDraws | src/commands/slots.js:102-119 | after the 15 frames, 39 draws are used and the payline shows draws 30, 34 and 37 |
| Slots.ReelsStopInOrder | src/commands/slots.js:106-112 | reel k stops after frame 12 + k and never moves again; until then it moves on every frame |
| Slots.FreePlayKeepsBalances | src/commands/slots.js:73-126 | a free play never changes any balance |
| Slots.SlotsNet | src/commands/slots.js:78-138 | a played spin leaves the balance at balance - bet plus the tier's credit, when nothing overflows |
| Slots.JackpotPaysLikePair | src/commands/slots.js:131-136 | as written, three alike pays the same as a pair: `settle.win` ignores its 2 or 5 and credits twice the bet |
| Slots.EarlyFailureKeepsStake | src/commands/slots.js:145-154 | when a message edit fails before the last frame, the loop stops and the locked bet is never settled |
| Slots.ShiftReels | src/commands/slots.js:106-112 | the stagger code turns the reels into `Frame` of them |
| Slots.SettleLastFrame | src/commands/slots.js:117-141 | the last frame settles the tier's credit; free play exactly for a zero bet; a loss exactly for a paid bet and tier 0; the footer shows the new balance |
| Slots.RunFrames | src/commands/slots.js:101-156 | the loop reaches the last frame exactly when no edit fails earlier; then the ledger is settled for the payline's tier, otherwise it is untouched |
| Slots.Execute | src/commands/slots.js:69-163 | the ledger is `SlotsBalances`; the bet is refused exactly when `CheckBet` rejects it; a result footer exists exactly when the spin reaches the last frame |
| Rps.Judge | src/games/rps/rules.js:4-13 | the result is always tie, win or lose |
| Rps.TieOnEqual | src/games/rps/rules.js:5 | the same choice always ties |
| Rps.JudgeIsCyclic | src/games/rps/rules.js:4-13 | on the three choices the result is tie, or win exactly when the player's choice is one step after the bot's in rock, paper, scissors |
| Rps.JudgeSwaps | src/games/rps/rules.js:4-13 | for two different choices the player wins exactly when the roles swapped would lose |
| Rps.OthersLose | src/games/rps/rules.js:6-12 | any pair of different strings not among the three winning pairs loses, even unknown choices |
| Rps.Emoji | src/games/rps/rules.js:15 | a choice shows as `undefined` exactly when it is not rock, paper or scissors |
| Rps.FormatResult | src/games/rps/rules.js:14-22 | the message is exactly the heading, a newline, the user's `<@id>` mention and the player's choice with its emoji, followed by the bot's choice and its emoji, with nothing in between |
| Rps.HeadingByResult | src/games/rps/rules.js:16-21 | two results share a heading exactly when they are equal or both neither win nor tie |
| Shop.FindById | src/config/shop.js:54-56 | an item is found exactly when some item has that id, and it is such an item |
| Shop.FilterByCategory | src/config/shop.js:58-60 | exactly the items of the category are kept |
| Shop.FilterAppend | src/config/shop.js:58-60 | filtering a concatenation filters each part |
| Shop.CatalogueWellFormed | src/config/shop.js:9-52 | the catalogue's ids are pairwise different and every item has a positive cost and a role |
| Shop.ItemByIdIsUnique | src/config/shop.js:54-56 | looking up an id gives the i-th item exactly when that item carries the id |
| Shop.CategoriesAsListed | src/config/shop.js:9-60 | the colour category is the first four items and the hr category the fifth |
| Registry.ToItemCode | src/registry/index.js:12 | an item's inventory code is `itm:` followed by the code |
| Registry.ToStockCode | src/registry/index.js:13 | a stock's inventory code is `stk:` followed by the symbol |
| Registry.ItemMapHas | src/registry/index.js:4-6 | a code is in the item map exactly when an enabled item has it |
| Registry.StockMapHas | src/registry/index.js:7-9 | a symbol is in the stock map exactly when an enabled stock has it |
| Registry.StockMapIsStocks | src/registry/index.js:7-9 | every listed stock is in the map under its own symbol, and nothing else is |
| Registry.PrefixesDiffer | src/registry/index.js:12-13 | no code carries both prefixes |
| Registry.CatalogEntryOf | src/registry/index.js:16-30 | an entry keeps the inventory code it was looked up by, and a code without either prefix has none |
| Registry.ItemCodeResolves | src/registry/index.js:12-30 | `itm:c` resolves exactly when an enabled item has code c, and to that item |
| Registry.StockCodeResolves | src/registry/index.js:13-30 | `stk:s` resolves exactly when a listed stock has symbol s, and to that stock |
| Registry.ItemDefOf | src/registry/index.js:31-33 | a found item definition has the code, is enabled and is listed |
| Registry.ItemDefAgrees | src/registry/index.js:16-33 | `getItemDef(code)` is the item of `getCatalogEntry(toItemCode(code))` |
| Registry.StockDefOf | src/registry/index.js:34-36 | a found stock definition has the symbol and is listed |
| Registry.DisplayNameCases | src/registry/index.js:45-52 | an unknown code shows itself, an item its name, a stock its name followed by the symbol in brackets |
| Registry.FindStock | src/economy/stocks.js:255 | a stock is found exactly when an enabled listed stock has the symbol, and it is that stock |
| Registry.FindStockAgrees | src/registry/index.js:34-36 | the economy's stock lookup agrees with the registry's |
| Stocks.RandInt | src/economy/stocks.js:95-97 | `randInt(a, b)` with the random number as input lies between a and b |
| Stocks.PickNewState | src/economy/stocks.js:165-171 | the new state is the sampled one, lasting 1..3 turns for boom and crash and 3..6 for every other state |
| Stocks.SeedRow | src/economy/stocks.js:173-180 | a stock without a row is seeded at its baseline with state 0 and no turns; an existing row is used as it is |
| Stocks.TickRow | src/economy/stocks.js:190-227 | a tick writes a row stamped now, with a price of at least 1 and no negative turns |
| Stocks.TickTurns | src/economy/stocks.js:190-225 | a state with turns left keeps going one turn less; an exhausted one without injection takes the new state with one turn already used |
| Stocks.InjectionRaisesPrice | src/economy/stocks.js:193-213 | an exhausted stock at or below the injection floor that wins the roll gets the one-turn injection state and a price raised by at least the bump |
| Stocks.Ticked | src/economy/stocks.js:183-229 | ticking adds rows exactly for the enabled stocks |
| Stocks.TickedKeeps | src/economy/stocks.js:183-229 | a symbol no enabled stock writes keeps its row through the loop |
| Stocks.TickedRow | src/economy/stocks.js:186-227 | each enabled stock ends the loop with the tick computed from its own row before the loop, whatever later stocks write |
| Stocks.TickedRows | src/economy/stocks.js:183-229 | after the loop every enabled stock holds its own tick and every other row is unchanged |
| Stocks.BuyCheck | src/economy/stocks.js:251-261 | the purchase is refused for a quantity not positive after `\| 0`, then an unknown stock, then a cost above the balance, reporting that cost (price × qty) as the amount needed; otherwise the price is the latest row's or the baseline and the cost fits the balance |
| Stocks.BuyIffCovered | src/economy/stocks.js:258-261 | a positive quantity of a listed stock is bought exactly when the balance covers its cost, and otherwise refused as insufficient funds needing that cost |
| Stocks.SellCheck | src/economy/stocks.js:268-278 | the sale is refused for a quantity not positive, an unknown stock, then a holding below the quantity; otherwise the price is the latest row's or the baseline |
| Stocks.BuyDebitsCost | src/economy/stocks.js:259-263 | a purchase the balance covers debits exactly its cost |
| Stocks.SellRemovesShares | src/economy/stocks.js:278-280 | a sale of at most the holding removes exactly that many shares |
| Stocks.HugeSaleLowersBalance | src/economy/stocks.js:280-283 | as written, a sale worth between 2^31 and 2^32 chips lowers the seller's balance, because `addBalance` wraps the proceeds |
| Stocks.Market.constructor | src/registry/stocks.js:2-38 | the market lists the registry's stocks and has no rows yet |
| Stocks.Market.LatestPrice | src/economy/stocks.js:258 | a price exists exactly when the symbol has a row, and it is that row's price |
| Stocks.Market.Write | src/economy/stocks.js:178 | writing replaces only that symbol's row |
| Stocks.Market.EnsureLatestRow | src/economy/stocks.js:173-180 | the returned row is `SeedRow` of the old latest row, and it is stored |
| Stocks.Market.TickOne | src/economy/stocks.js:186-227 | one pass of the loop stores that stock's tick and nothing else |
| Stocks.Market.TickAllStocks | src/economy/stocks.js:183-229 | the loop leaves the table `Ticked` over the whole catalogue, and every stored price stays at least 1 |
| Stocks.Market.ResetStock | src/economy/stocks.js:286-293 | an unknown stock is refused and nothing changes; otherwise a baseline row with state 0 is written and the baseline returned |
| Stocks.Market.ResetAllStocks | src/economy/stocks.js:295-300 | every enabled stock gets a baseline row and every other row is unchanged |
| Stocks.Market.BuyStock | src/economy/stocks.js:251-266 | the verdict is `BuyCheck`; a refusal changes nothing; a purchase debits the cost and adds the shares under `stk:<symbol>` |
| Stocks.Market.SellStock | src/economy/stocks.js:268-284 | the verdict is `SellCheck`; a refusal changes nothing; a sale removes the shares, credits price x quantity and returns the new balance |
| Sell.Quantity | src/commands/sell.js:9-12 | a missing quantity reads as 1, a given one as its 32-bit `\| 0` value |
| Sell.Check | src/commands/sell.js:14-41 | the sale is refused with the usage text exactly when the code is missing or empty or the quantity is not positive; as not sellable exactly when the item is unknown, disabled or has no positive sell price; otherwise it goes through exactly when the holding covers the quantity, and a refusal reports the holding |
| Sell.SaleIsOfListedItem | src/commands/sell.js:24-41 | an accepted sale is of an enabled catalogue item with that code and a positive sell price, in a quantity between 1 and the holding |
| Sell.RemovesExactly | src/commands/sell.js:43-44 | a sale of at most the holding removes exactly that many items |
| Sell.HugeSaleIsDebited | src/commands/sell.js:43-45 | as written, proceeds between 2^31 and 2^32 chips lower the seller's balance instead of raising it |
| Sell.Execute | src/commands/sell.js:6-53 | the reply follows `Check`; a refusal changes nothing; a sale removes the items, credits sell price x quantity and reports the new balance |
| Claims.CeilSeconds | src/commands/daily.js:6 | the whole seconds are the least number of seconds covering the milliseconds |
| Claims.FieldsReadBack | src/commands/daily.js:5-12 | `hh:mm:ss` splits back at ':' into three digit strings, minutes and seconds two digits wide, whose values are the hours, minutes and seconds |
| Claims.HmsAddsUp | src/commands/daily.js:7-9 | hours, minutes and seconds add back up to the seconds, with minutes and seconds below 60 |
| Claims.FmtHMSReadsBack | src/commands/daily.js:5-12 | the countdown text reads back as hours x 3600 + minutes x 60 + seconds = the milliseconds rounded up to seconds, minutes and seconds below 60 |
| Claims.DailyReplyOf | src/commands/daily.js:22-38 | the reply is the cooldown exactly when the claim failed as "already", with the wait formatted and the streak; the first-day text exactly when it did not and the streak is 1; every granted reply shows the amount and the new balance |
| Claims.OtherFailuresReadAsGranted | src/commands/daily.js:22-38 | as written, a claim that failed for any reason other than "already" is answered as a granted claim |
| Claims.FreebieReplyOf | src/commands/freebie.js:22-39 | the reply is the cooldown exactly when the claim failed, with the wait formatted; otherwise it shows the amount and the new balance |
| I18n.PacksAgree | src/core/i18n.js:26-53 | the English and Japanese packs have the same keys and no empty text |
| I18n.LangOf | src/core/i18n.js:22-24 | a user's language is the stored non-empty one, English when none is stored, never empty |
| I18n.SetThenGet | src/core/i18n.js:17-24 | after setting a supported language it is the user's language; an unsupported one changes nothing; other users keep theirs |
| I18n.Template | src/core/i18n.js:58 | an unknown key is its own template |
| I18n.TemplateChoice | src/core/i18n.js:57-58 | a known key takes its text from the user's pack, an unknown key stays itself |
| I18n.Word | src/core/i18n.js:59 | the placeholder name is the longest run of word characters at the head |
| I18n.SubstNoBrace | src/core/i18n.js:59 | a text without '{' is left as it is |
| I18n.SubstNoVars | src/core/i18n.js:59 | with no variables, every text comes back unchanged |
| I18n.SubstPlaceholder | src/core/i18n.js:59 | `{name}` is replaced by the variable's value when given and kept otherwise, and the rest is substituted on |
| I18n.SubstKeeps | src/core/i18n.js:59 | a character that does not open a placeholder is copied, a '{' not followed by a word and '}' included |
| I18n.Languages.constructor | src/core/i18n.js:5-10 | the table starts as the saved one |
| I18n.Languages.SetUserLang | src/core/i18n.js:17-21 | a supported language is stored for the user and read back; an unsupported one changes nothing |
| I18n.Languages.UserLang | src/core/i18n.js:22-24 | the user's language is `LangOf` the table |
| I18n.Languages.T | src/core/i18n.js:55-60 | the result is the template of the key in the user's language with its placeholders substituted; an unknown key without placeholders comes back as it is, and with no variables the result is the template itself |
| Leaderboard.NormalizeLimit | src/commands/leaderboard.js:12-15 | the limit is between 1 and 25: 10 when missing, not finite or not positive, capped at 25 |
| Leaderboard.CategoryOf | src/commands/leaderboard.js:8-9 | a missing category reads as balance |
| Leaderboard.QueryOf | src/commands/leaderboard.js:19-25 | balance asks for the top balances, any other category for the top stats by it, with the normalised limit |
| Leaderboard.Medal | src/commands/leaderboard.js:58-62 | ranks outside 1..3 get the plain marker |
| Leaderboard.MedalsDiffer | src/commands/leaderboard.js:58-62 | the first three ranks get three different medals, none of them the plain marker |
| Leaderboard.SingularExactlyAtOne | src/commands/leaderboard.js:64-94 | a count is written without its plural ending exactly when it is 1 |
| Leaderboard.UnknownCategoryIsBare | src/commands/leaderboard.js:46-94 | an unknown category shows the bare number under the plain "Leaderboard" title |
| Leaderboard.Lines | src/commands/leaderboard.js:96 | one line per row |
| Leaderboard.LineAt | src/commands/leaderboard.js:96 | the k-th line shows rank k + 1 for the k-th row |
| Leaderboard.ReplyOf | src/commands/leaderboard.js:26-103 | the failure text exactly when the query threw, the empty text exactly when it returned nothing, otherwise the board of the returned rows |
| Leaderboard.BoardSplitsBack | src/commands/leaderboard.js:99-103 | a board of lines without newlines splits back into the title, the blank line and those lines |
| Leaderboard.ContentLines | src/commands/leaderboard.js:99-103 | for user ids without newlines, the board has the title, a blank line and then exactly the ranked line of each row, in order |
| Stats.Target | src/commands/stats.js:8-11 | the stats shown are the named user's, or the invoker's |
| Stats.Count | src/commands/stats.js:15-20 | a missing count reads as 0 |
| Stats.WinRateRounds | src/commands/stats.js:22-24 | the win rate is the whole percentage nearest to wins / total, halves rounded up |
| Stats.WinRateBounds | src/commands/stats.js:22-24 | the win rate lies in 0..100, is 0 without wins and 100 with only wins |
| Stats.LastPlayedCases | src/commands/stats.js:27-33 | "never" exactly when there is no positive time; otherwise a Discord relative timestamp whose number is the time |
| Stats.LastGame | src/commands/stats.js:35 | a missing or empty game type shows as N/A |
| Stats.CardOf | src/commands/stats.js:8-35 | the card is for the target; games, wins, losses, ties and biggest win and loss are the row's counts with missing ones read as 0; the win rate is that of the counts; last game and last played are the row's texts with their N/A and never defaults; a user with no row gets zeroes, N/A and never |
| RouletteTable.RedsAreRed | src/commands/roulette.js:238 | every listed red number is in 1..36 and red by the table's colouring |
| RouletteTable.BlacksAreBlack | src/commands/roulette.js:239 | every listed black number is in 1..36 and black by the table's colouring |
| RouletteTable.ColumnsSound | src/commands/roulette.js:256-259 | every number of column n is in 1..36 and is n modulo 3 |
| PokerHand.Hand.RecordFold | src/commands/poker.js:420-423 | the hand becomes `Act` of the old hand for a fold |
| PokerHand.Hand.RecordCheck | src/commands/poker.js:425-427 | the hand becomes `Act` of the old hand for a check |
| PokerHand.Hand.RecordCall | src/commands/poker.js:429-442 | the hand becomes `Act` of the old hand for a call |
| PokerHand.Hand.RecordRaise | src/commands/poker.js:444-455 | the hand becomes `Act` of the old hand for a raise |
| PokerHand.Hand.RecordAllIn | src/commands/poker.js:457-470 | the hand becomes `Act` of the old hand for an all-in |
| JsNum.ToInt32 | src/economy/stocks.js:252 | `x \| 0` is the 32-bit signed value congruent to x modulo 2^32, and x itself when it fits |
| JsNum.ParseIntOfString | src/commands/roulette.js:262 | `parseInt` reads back every integer `String` writes |
| JsNum.ParseIntOfDigits | src/commands/roulette.js:452 | `parseInt` of a string of decimal digits is the number they write |
| JsNum.NumberOfString | src/commands/roulette.js:475 | `Number` reads back every integer `String` writes |

## Left out

- Discord I/O: message sending and editing, interaction routing by `custom_id` prefix in the bot's entry point, deferred replies and ephemeral flags are not modelled; commands take their options as values and return reply datatypes.
- Randomness and clocks: `Math.random`, `Date.now` and the shuffle picks are inputs (draws, picks, `now`), constrained only to their ranges.
- Timers: the poker auto-fold timeout of `promptPlayerAction` and the delay before the next hand are not modelled as time; the resumed hand is a separate step (`PokerLobby.Resume`). A timer that fires after its session ended is not modelled, because only one session at a time is.
- Floating point: stock multipliers, the baseline bias and the weighted state draw of `sampleIndex` are inputs (the scaled price and the chosen state); `applyBaselineBias`, `sampleMultiplier`, `sampleFloat` and the state table's chances are not modelled.
- The stats win rate is computed exactly on integers (`Math.round` of wins / total x 100, halves rounded up), not in binary floating point.
- Numbers: values are integers; a non-integer `Number` read from an option or a row is not modelled.
- RouletteTable.CheckSplit: `Number` is modelled only on blank strings and on an optional sign followed by decimal digits; every other part is answered `BadSplit`. The program reads more: "1.5,4.5" passes (rows 0 and 1, three apart) and plays the selection "1.5,4.5", which `parseInt` turns into the pockets 1 and 4; "0x1,0x4" and "1.0,4" play "1,4"; "4e0,7" plays "4,7"; "Infinity,5" is refused as out of range rather than as malformed.
- RouletteTable.SplitCoversTwoNeighbours: proved for the split entries the model accepts, the decimal-integer ones; the fraction, exponent, hexadecimal, octal and binary entries listed under `RouletteTable.CheckSplit` are not covered.
- Roulette.ModalPlays: its split case holds for the decimal-integer entries `RouletteTable.CheckSplit` accepts; an entry such as "1.5,4.5" or "0x1,0x4", which the program plays, is refused in the model.
- Roulette.SplitWinsIffHit: stated over the decimal-integer split entries only; the other number forms listed under `RouletteTable.CheckSplit` are not covered.
- The stock injection: the configuration defines neither `injectionMin` nor `injectionMax`, so as configured `sampleFloat` returns NaN (src/economy/stocks.js:105-109, 202), the bump `Math.max(1, Math.floor(NaN))` is NaN and an injection writes a NaN price (src/economy/stocks.js:205-209). The model assumes a configured finite range: the boost is an integer input.
- Stocks.TickRow: its price of at least 1 holds for a finite boost; with the configuration as it stands the injected price is NaN.
- Stocks.InjectionRaisesPrice: the raise by at least the bump holds for a finite boost; as configured the program writes NaN instead.
- Stocks.Market.TickAllStocks: the invariant that every stored price is at least 1 holds for finite boosts only; as configured an injected stock's price becomes NaN.
- Stock history: only the latest row per symbol is kept; `listCurrentStocks`, `allItems` and `allStocks` only list tables and are not modelled.
- SQLite: `claimDailyCalendar`, `claimFreebie`, `getTopBalances`, `getTopStatsBy`, `getStats`, `stock_latest` and `stock_write` are imported from src/economy/db.js, which does not define them; their results are inputs (`Claim`, `Fetched`, `StatsRow`) or a map. The item list imported by src/registry/index.js, src/registry/items.js, is not part of this model; it is a parameter.
- The daily command's `base` and `cap` come from configuration that does not define them; the claim's result is an input.
- `lang.json` reading and writing in `src/core/i18n.js` is not modelled; the language table starts from the saved map.
- Object keys such as `__proto__` or `constructor` that a JavaScript lookup would find on the prototype are not modelled.
- Message texts are modelled only where a property is stated about them (labels, ids, countdowns, board lines); the rest are reply constructors.
- `fmtHMS` of a negative wait is not modelled: the wait is a `nat`.
- The stats card's text: its lines joined with "\n" (src/commands/stats.js:57) are modelled only as far as its fields.
- Logging: the `console.error` calls (the leaderboard's failed query, the slots animation and the poker thread errors) are not modelled; only the reply that follows them is.
- Slash-command dispatch of `execute` to the poker subcommands is not modelled; each subcommand is its own member.
- PokerRules.Scan: its own contract only bounds the index; what the search returns is stated by `PokerRules.ScanOutcome` and `PokerRules.ScanExhaustedSkipped`.
- PokerFlow.Acted: its own contract only keeps the turn in range; the chips it moves are stated by `PokerRules.Moved` and `PokerFlow.TakeFromStackSum`.
- PokerFlow.Blinded: its own contract only keeps the turn in range; the blinds and the deal are stated by `PokerFlow.OpeningOk`.
- Rps.Emoji: it states which choices show as `undefined`; which glyph each of the three choices gets is not stated beyond the constants of `formatResult`.
- `botPick` (src/games/rps/rules.js:1-3): a uniform random pick; randomness is an input, so the bot's choice is a parameter of `Rps.FormatResult` and the judge, and no member models the pick.
- `RPS_CHOICES`: src/commands/rps.js imports it from src/games/rps/rules.js, which neither defines nor exports it; `Rps.Choices` stands in for it with the three choices `judge` compares.
