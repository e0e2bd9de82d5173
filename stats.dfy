/**
  `/stats` from src/commands/stats.js: the target user, the defaults of
  the stat fields, the win rate and the last-played text. The stats row
  (`getStats`) is not part of this model: it is an input, each field
  `None` when the row lacks it.
*/
module Stats {
  import opened Wrappers
  import opened JsNum

  /** `user ?? invoker`: the user option when given, the caller otherwise. */
  function Target(user: Option<string>, invoker: string): (t: string)
    ensures user.None? ==> t == invoker
    ensures user.Some? ==> t == user.value
  {
    user.GetOr(invoker)
  }

  /** `x || 0` on a count: missing, null and 0 all read as 0. */
  function Count(x: Option<int>): (n: int)
    ensures x.None? ==> n == 0
    ensures x.Some? ==> n == x.value
  {
    x.GetOr(0)
  }

  /**
    `Math.round(wins / total * 100)`, 0 without decisions. `Math.round`
    rounds halves up, so this is the floor of 100 x wins / total + 1/2,
    computed exactly.
  */
  function WinRate(wins: int, losses: int, ties: int): int {
    var total := wins + losses + ties;
    if total > 0 then (200 * wins + total) / (2 * total) else 0
  }

  /**
    The win rate is the whole percentage nearest to wins / total, halves
    rounded up: r - 1/2 <= 100 x wins / total < r + 1/2.
  */
  lemma WinRateRounds(wins: int, losses: int, ties: int)
    requires wins + losses + ties > 0
    ensures var total := wins + losses + ties;
      var r := WinRate(wins, losses, ties);
      (2 * r - 1) * total <= 200 * wins < (2 * r + 1) * total
  {
    var total := wins + losses + ties;
    var r := WinRate(wins, losses, ties);
    var n := 200 * wins + total;
    assert n == r * (2 * total) + n % (2 * total);
    assert 0 <= n % (2 * total) < 2 * total;
    assert (2 * r - 1) * total == r * (2 * total) - total;
    assert (2 * r + 1) * total == r * (2 * total) + total;
  }

  /** Multiplying by a non-negative number keeps the order. */
  lemma MulLe(d: int, a: int, b: int)
    requires d >= 0 && a <= b
    ensures d * a <= d * b
  {
    assert d * b - d * a == d * (b - a);
  }

  /** The quotient of n by d is q when d x q <= n < d x (q + 1). */
  lemma DivIs(n: int, d: int, q: int)
    requires d > 0 && d * q <= n < d * (q + 1)
    ensures n / d == q
  {
    var r := n / d;
    assert n == d * r + n % d && 0 <= n % d < d;
    if r > q {
      MulLe(d, q + 1, r);
    } else if r < q {
      MulLe(d, r + 1, q);
    }
  }

  /** With counts that are not negative the win rate is a percentage: 0 to 100, and 0 or 100 at the extremes. */
  lemma WinRateBounds(wins: int, losses: int, ties: int)
    requires wins >= 0 && losses >= 0 && ties >= 0
    ensures 0 <= WinRate(wins, losses, ties) <= 100
    ensures wins == 0 ==> WinRate(wins, losses, ties) == 0
    ensures wins > 0 && losses == 0 && ties == 0 ==> WinRate(wins, losses, ties) == 100
  {
    var total := wins + losses + ties;
    if total > 0 {
      var n, d := 200 * wins + total, 2 * total;
      assert WinRate(wins, losses, ties) == n / d;
      if wins == 0 {
        DivIs(n, d, 0);
      } else if losses == 0 && ties == 0 {
        DivIs(n, d, 100);
      } else {
        var r := n / d;
        assert n == d * r + n % d && 0 <= n % d < d;
        if r > 100 {
          MulLe(d, 101, r);
        } else if r < 0 {
          MulLe(d, r + 1, 0);
        }
      }
    }
  }

  /** `last_played_at`: absent (null), or a stored value `Number` reads as an integer. */
  function LastPlayed(lastPlayedAt: Option<int>): (s: string)
  {
    if lastPlayedAt.Some? && lastPlayedAt.value > 0 then "<t:" + IntToString(lastPlayedAt.value) + ":R>"
    else "never"
  }

  /** `parseInt` of digits followed by something else reads the digits. */
  lemma ParseIntStopsAtNonDigit(d: string, rest: string)
    requires |d| >= 1 && IsDigits(d) && rest != [] && !IsDigit(rest[0])
    ensures ParseInt(d + rest) == Some(DigitsValue(d))
  {
    var s := d + rest;
    assert s[0] == d[0] && IsDigit(s[0]);
    assert !IsSpace(s[0]) && s[0] != '-' && s[0] != '+';
    assert TrimStart(s) == s;
    LeadingDigitsPrefix(d, rest);
  }

  /** "never" unless the timestamp is a positive number; a timestamp renders as a relative Discord time that reads back as it. */
  lemma LastPlayedCases(lastPlayedAt: Option<int>)
    ensures LastPlayed(lastPlayedAt) == "never" <==> lastPlayedAt.None? || lastPlayedAt.value <= 0
    ensures LastPlayed(lastPlayedAt) != "never" ==>
      "<t:" <= LastPlayed(lastPlayedAt) && ParseInt(LastPlayed(lastPlayedAt)[3..]) == Some(lastPlayedAt.value)
  {
    if lastPlayedAt.Some? && lastPlayedAt.value > 0 {
      var d := NatToString(lastPlayedAt.value);
      var s := LastPlayed(lastPlayedAt);
      var rest := ":R>";
      assert s == "<t:" + d + rest;
      assert s[3..] == d + rest;
      assert s[0] != "never"[0];
      ParseIntStopsAtNonDigit(d, rest);
    }
  }

  /** Parsing stops at the first character that is not a digit. */
  lemma {:induction false} LeadingDigitsPrefix(d: string, rest: string)
    requires IsDigits(d) && rest != [] && !IsDigit(rest[0])
    ensures LeadingDigits(d + rest) == d
    decreases |d|
  {
    if d != [] {
      assert (d + rest)[1..] == d[1..] + rest;
      LeadingDigitsPrefix(d[1..], rest);
      assert [d[0]] + d[1..] == d;
    }
  }

  /** `last_game_type || "N/A"`. */
  function LastGame(lastGameType: Option<string>): (s: string)
    ensures lastGameType.None? || lastGameType.value == "" ==> s == "N/A"
    ensures lastGameType.Some? && lastGameType.value != "" ==> s == lastGameType.value
  {
    if lastGameType.Some? && lastGameType.value != "" then lastGameType.value else "N/A"
  }

  /** The stats row as `getStats` returns it. */
  datatype StatsRow = StatsRow(gamesPlayed: Option<int>, wins: Option<int>, losses: Option<int>, ties: Option<int>,
                               biggestWin: Option<int>, biggestLoss: Option<int>,
                               lastPlayedAt: Option<int>, lastGameType: Option<string>)

  /** The values the stats card shows. */
  datatype Card = Card(target: string, games: int, wins: int, losses: int, ties: int, winRate: int,
                       biggestWin: int, biggestLoss: int, lastGame: string, lastPlayed: string)

  /** `execute`: the card for the target's row. */
  function CardOf(user: Option<string>, invoker: string, row: StatsRow): (c: Card)
    ensures c.target == Target(user, invoker)
    ensures c.winRate == WinRate(Count(row.wins), Count(row.losses), Count(row.ties))
    ensures row == StatsRow(None, None, None, None, None, None, None, None) ==>
      c == Card(c.target, 0, 0, 0, 0, 0, 0, 0, "N/A", "never")
    ensures c.games == Count(row.gamesPlayed) && c.wins == Count(row.wins)
      && c.losses == Count(row.losses) && c.ties == Count(row.ties)
    ensures c.biggestWin == Count(row.biggestWin) && c.biggestLoss == Count(row.biggestLoss)
    ensures c.lastGame == LastGame(row.lastGameType) && c.lastPlayed == LastPlayed(row.lastPlayedAt)
  {
    var wins, losses, ties := Count(row.wins), Count(row.losses), Count(row.ties);
    Card(Target(user, invoker), Count(row.gamesPlayed), wins, losses, ties, WinRate(wins, losses, ties),
         Count(row.biggestWin), Count(row.biggestLoss), LastGame(row.lastGameType), LastPlayed(row.lastPlayedAt))
  }
}
