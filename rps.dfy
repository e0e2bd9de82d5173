/**
  The rock-paper-scissors judge and result text of src/games/rps/rules.js.
  Choices and results are the strings the code compares; the bot's pick
  is an input.
*/
module Rps {
  /**
    The three valid choices. src/commands/rps.js imports `RPS_CHOICES` from
    rules.js, which does not define it; this constant stands in for it.
  */
  const Choices: seq<string> := ["rock", "paper", "scissors"]

  /** `judge(player, bot)`. */
  function Judge(player: string, bot: string): (r: string)
    ensures r == "tie" || r == "win" || r == "lose"
  {
    if player == bot then "tie"
    else if (player == "rock" && bot == "scissors")
         || (player == "paper" && bot == "rock")
         || (player == "scissors" && bot == "paper") then "win"
    else "lose"
  }

  /** A reference rule: on valid choices, each choice beats the one before it in `Choices`, cyclically. */
  predicate Beats(i: nat, j: nat) { (i - j) % 3 == 1 }

  /** Equal picks tie, whatever the strings are. */
  lemma TieOnEqual(p: string)
    ensures Judge(p, p) == "tie"
  {
  }

  /** On two valid choices the judge agrees with the cyclic rule in both directions. */
  lemma JudgeIsCyclic(i: nat, j: nat)
    requires i < 3 && j < 3
    ensures Judge(Choices[i], Choices[j]) == (if i == j then "tie" else if Beats(i, j) then "win" else "lose")
  {
    assert Choices[0] != Choices[1] && Choices[0] != Choices[2] && Choices[1] != Choices[2];
  }

  /** For distinct valid choices, the player wins exactly when the swapped game loses. */
  lemma JudgeSwaps(p: string, b: string)
    requires p in Choices && b in Choices && p != b
    ensures Judge(p, b) == "win" <==> Judge(b, p) == "lose"
  {
    assert Choices[0] != Choices[1] && Choices[0] != Choices[2] && Choices[1] != Choices[2];
  }

  /** Any unequal pair that is not one of the three winning pairs loses, invalid strings included. */
  lemma OthersLose(p: string, b: string)
    requires p != b
    requires !(p == "rock" && b == "scissors") && !(p == "paper" && b == "rock") && !(p == "scissors" && b == "paper")
    ensures Judge(p, b) == "lose"
  {
  }

  /** The emoji of a choice; a missing key renders as the text "undefined". */
  function Emoji(choice: string): (e: string)
    ensures choice !in Choices <==> e == "undefined"
  {
    if choice == "rock" then "\U{1FAA8}"
    else if choice == "paper" then "\U{1F4C4}"
    else if choice == "scissors" then "✂️"
    else "undefined"
  }

  /** The headline for a result string; anything but "win" or "tie" reads as a loss. */
  function Heading(result: string): string {
    if result == "win" then "\U{1F389} You **WIN!**"
    else if result == "tie" then "\U{1F610} It's a **TIE.**"
    else "\U{1F480} You **LOSE.**"
  }

  /** `formatResult`. */
  function FormatResult(userId: string, player: string, bot: string, result: string): (s: string)
    ensures Heading(result) + "\n<@" + userId + ">: **" + player + "** " + Emoji(player) <= s
    ensures var tail := "  |  Bot: **" + bot + "** " + Emoji(bot); |tail| <= |s| && s[|s| - |tail|..] == tail
    ensures |s| == |Heading(result) + "\n<@" + userId + ">: **" + player + "** " + Emoji(player)|
                 + |"  |  Bot: **" + bot + "** " + Emoji(bot)|
  {
    var front := Heading(result) + "\n<@" + userId + ">: **" + player + "** " + Emoji(player);
    var tail := "  |  Bot: **" + bot + "** " + Emoji(bot);
    assert (front + tail)[..|front|] == front && (front + tail)[|front|..] == tail;
    front + tail
  }

  /**
    The headline tells the three results apart and depends on the result
    alone: two results that are both outside {"win", "tie"} format the same
    first line.
  */
  lemma HeadingByResult(r1: string, r2: string)
    ensures Heading(r1) == Heading(r2) <==>
      (r1 == r2 || (r1 != "win" && r1 != "tie" && r2 != "win" && r2 != "tie"))
  {
    var w, t, l := Heading("win"), Heading("tie"), Heading("lose");
    assert w[0] != t[0] && w[0] != l[0] && t[0] != l[0];
  }
}
