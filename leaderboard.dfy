/**
  `/leaderboard` from src/commands/leaderboard.js: option defaults, the
  limit clamp, the query issued, and the text of the board. The two
  queries (`getTopBalances`, `getTopStatsBy`) are not part of this model:
  their outcome is an input.
*/
module Leaderboard {
  import opened Wrappers
  import opened JsNum

  /** What `Number(x)` gives: an integer, or NaN / an infinity. */
  datatype JsNumber = Finite(n: int) | NonFinite

  /** `Number(limit ?? 10)`, then: not finite or not positive gives 10, above 25 gives 25. */
  function NormalizeLimit(limit: Option<JsNumber>): (r: int)
    ensures 1 <= r <= 25
    ensures limit.None? || limit == Some(NonFinite) ==> r == 10
    ensures limit.Some? && limit.value.Finite? ==>
      var n := limit.value.n;
      r == (if n <= 0 then 10 else if n > 25 then 25 else n)
  {
    var v := limit.GetOr(Finite(10));
    if v.NonFinite? || v.n <= 0 then 10
    else if v.n > 25 then 25
    else v.n
  }

  /** `category ?? "balance"`. */
  function CategoryOf(category: Option<string>): (c: string)
    ensures category.None? ==> c == "balance"
    ensures category.Some? ==> c == category.value
  {
    category.GetOr("balance")
  }

  datatype Query = TopBalances(limit: int) | TopStatsBy(category: string, limit: int)

  /** The query `execute` runs: balances for "balance", the stats table for every other category. */
  function QueryOf(category: Option<string>, limit: Option<JsNumber>): (q: Query)
    ensures 1 <= q.limit <= 25 && q.limit == NormalizeLimit(limit)
    ensures q.TopBalances? <==> CategoryOf(category) == "balance"
    ensures q.TopStatsBy? ==> q.category == CategoryOf(category)
  {
    var c := CategoryOf(category);
    var n := NormalizeLimit(limit);
    if c == "balance" then TopBalances(n) else TopStatsBy(c, n)
  }

  /** A row of either query; the column the category does not use is `None`. */
  datatype Row = Row(userId: string, balance: Option<int>, value: Option<int>)

  /** The query threw, or returned (possibly `null`) rows. */
  datatype Fetched = Threw | Got(rows: Option<seq<Row>>)

  /** `titleMap[category] ?? "Leaderboard"`. */
  function Title(category: string): string {
    if category == "balance" then "Chip Balance"
    else if category == "games_played" then "Games Played"
    else if category == "wins" then "Wins"
    else if category == "losses" then "Losses"
    else if category == "ties" then "Ties"
    else if category == "biggest_win" then "Biggest Win Bet"
    else if category == "biggest_loss" then "Biggest Loss Bet"
    else "Leaderboard"
  }

  /** The medal of a rank: gold, silver and bronze for the first three, a small square after. */
  function Medal(rank: int): (m: string)
    ensures rank > 3 || rank < 1 ==> m == "▫️"
  {
    if rank == 1 then "\U{1F947}"
    else if rank == 2 then "\U{1F948}"
    else if rank == 3 then "\U{1F949}"
    else "▫️"
  }

  /** The first three ranks get three different medals, none of them the square. */
  lemma MedalsDiffer()
    ensures Medal(1) != Medal(2) && Medal(2) != Medal(3) && Medal(1) != Medal(3)
    ensures forall r :: 1 <= r <= 3 ==> Medal(r) != Medal(4)
  {
    assert Medal(1)[0] != Medal(2)[0] && Medal(2)[0] != Medal(3)[0] && Medal(1)[0] != Medal(3)[0];
    assert forall r :: 1 <= r <= 3 ==> Medal(r)[0] != Medal(4)[0];
  }

  /** `v === 1 ? "" : plural`. */
  function Plural(v: int, plural: string): string {
    if v == 1 then "" else plural
  }

  /** The unit word of a counting category. */
  function Unit(category: string): string {
    if category == "games_played" then "game"
    else if category == "wins" then "win"
    else if category == "losses" then "loss"
    else "tie"
  }

  predicate Counting(category: string) {
    category == "games_played" || category == "wins" || category == "losses" || category == "ties"
  }

  /** The value text of a row; a missing column reads as 0. */
  function ValueText(category: string, row: Row): string {
    if category == "balance" then IntToString(row.balance.GetOr(0)) + " chips"
    else
      var v := row.value.GetOr(0);
      if Counting(category) then
        IntToString(v) + " " + Unit(category) + Plural(v, if category == "losses" then "es" else "s")
      else if category == "biggest_win" then "biggest win bet: " + IntToString(v)
      else if category == "biggest_loss" then "biggest loss bet: " + IntToString(v)
      else IntToString(v)
  }

  /** In a counting category the unit is singular exactly when the value is 1. */
  lemma SingularExactlyAtOne(category: string, row: Row)
    requires Counting(category)
    ensures var v := row.value.GetOr(0);
      ValueText(category, row) == IntToString(v) + " " + Unit(category) <==> v == 1
  {
  }

  /** An unknown category prints the bare value (0 when the row has none). */
  lemma UnknownCategoryIsBare(category: string, row: Row)
    requires !Counting(category) && category != "balance" && category != "biggest_win" && category != "biggest_loss"
    ensures ValueText(category, row) == IntToString(row.value.GetOr(0))
    ensures Title(category) == "Leaderboard"
  {
  }

  function Rank(i: nat): nat { i + 1 }

  /** One line of the board: medal, rank, mention and value text. */
  function Line(category: string, i: nat, row: Row): string {
    Medal(Rank(i)) + " **" + NatToString(Rank(i)) + ".** <@" + row.userId + "> — **" + ValueText(category, row) + "**"
  }

  /** `rows.map(...)`: one line per row. */
  function Lines(category: string, rows: seq<Row>): (ls: seq<string>)
    ensures |ls| == |rows|
  {
    if rows == [] then []
    else Lines(category, rows[..|rows| - 1]) + [Line(category, |rows| - 1, rows[|rows| - 1])]
  }

  /** Line k of the board is the line of row k, ranked k + 1. */
  lemma {:induction false} LineAt(category: string, rows: seq<Row>, k: nat)
    requires k < |rows|
    ensures Lines(category, rows)[k] == Line(category, k, rows[k])
  {
    var init := rows[..|rows| - 1];
    if k < |init| {
      LineAt(category, init, k);
      assert init[k] == rows[k];
    }
  }

  function Header(category: string): string {
    "\U{1F3C6} **Leaderboard – " + Title(category) + "**"
  }

  /** The header, an empty line and one line per row, joined by newlines. */
  function Content(category: string, rows: seq<Row>): string {
    Join([Header(category), ""] + Lines(category, rows), '\n')
  }

  datatype Reply = LoadFailed | NoEntries | Board(content: string)

  /** What `execute` replies once the query has run. */
  function ReplyOf(category: Option<string>, fetched: Fetched): (r: Reply)
    ensures r == LoadFailed <==> fetched.Threw?
    ensures r == NoEntries <==> fetched.Got? && (fetched.rows.None? || fetched.rows.value == [])
    ensures r.Board? ==> r.content == Content(CategoryOf(category), fetched.rows.value)
  {
    match fetched
    case Threw => LoadFailed
    case Got(rows) =>
      if rows.None? || rows.value == [] then NoEntries
      else Board(Content(CategoryOf(category), rows.value))
  }

  // ------------------------------------------------------------ line count

  predicate NoNewline(s: string) { '\n' !in s }

  lemma {:induction false} ConcatNoNewline(a: string, b: string)
    requires NoNewline(a) && NoNewline(b)
    ensures NoNewline(a + b)
  {
    assert forall i :: 0 <= i < |a + b| ==> (a + b)[i] == if i < |a| then a[i] else b[i - |a|];
  }

  lemma DigitsNoNewline(s: string)
    requires IsDigits(s)
    ensures NoNewline(s)
  {
    assert forall i :: 0 <= i < |s| ==> s[i] != '\n';
  }

  lemma IntNoNewline(i: int)
    ensures NoNewline(IntToString(i))
  {
    NotInNumber(i, '\n');
  }

  lemma ValueTextNoNewline(category: string, row: Row)
    ensures NoNewline(ValueText(category, row))
  {
    var v := row.value.GetOr(0);
    IntNoNewline(row.balance.GetOr(0));
    IntNoNewline(v);
    if category == "balance" {
      ConcatNoNewline(IntToString(row.balance.GetOr(0)), " chips");
    } else if Counting(category) {
      var p := Plural(v, if category == "losses" then "es" else "s");
      ConcatNoNewline(IntToString(v), " ");
      ConcatNoNewline(IntToString(v) + " ", Unit(category));
      ConcatNoNewline(IntToString(v) + " " + Unit(category), p);
    } else if category == "biggest_win" {
      ConcatNoNewline("biggest win bet: ", IntToString(v));
    } else if category == "biggest_loss" {
      ConcatNoNewline("biggest loss bet: ", IntToString(v));
    }
  }

  lemma LineNoNewline(category: string, i: nat, row: Row)
    requires NoNewline(row.userId)
    ensures NoNewline(Line(category, i, row))
  {
    var rank := NatToString(Rank(i));
    DigitsNoNewline(rank);
    ValueTextNoNewline(category, row);
    var a := Medal(Rank(i)) + " **";
    ConcatNoNewline(Medal(Rank(i)), " **");
    ConcatNoNewline(a, rank);
    ConcatNoNewline(a + rank, ".** <@");
    ConcatNoNewline(a + rank + ".** <@", row.userId);
    ConcatNoNewline(a + rank + ".** <@" + row.userId, "> — **");
    ConcatNoNewline(a + rank + ".** <@" + row.userId + "> — **", ValueText(category, row));
    ConcatNoNewline(a + rank + ".** <@" + row.userId + "> — **" + ValueText(category, row), "**");
  }

  lemma HeaderNoNewline(category: string)
    ensures NoNewline(Header(category))
  {
    ConcatNoNewline("\U{1F3C6} **Leaderboard – ", Title(category));
    ConcatNoNewline("\U{1F3C6} **Leaderboard – " + Title(category), "**");
  }

  /** A header, an empty line and newline-free lines, joined by newlines, split back into themselves. */
  lemma {:induction false} BoardSplitsBack(header: string, ls: seq<string>)
    requires NoNewline(header) && forall k :: 0 <= k < |ls| ==> NoNewline(ls[k])
    ensures Split(Join([header, ""] + ls, '\n'), '\n') == [header, ""] + ls
  {
    var parts := [header, ""] + ls;
    assert forall k :: 2 <= k < |parts| ==> parts[k] == ls[k - 2];
    SplitJoin(parts, '\n');
  }

  lemma LinesNoNewline(category: string, rows: seq<Row>)
    requires forall i :: 0 <= i < |rows| ==> NoNewline(rows[i].userId)
    ensures forall k :: 0 <= k < |rows| ==> NoNewline(Lines(category, rows)[k])
  {
    forall k | 0 <= k < |rows| ensures NoNewline(Lines(category, rows)[k]) {
      LineAt(category, rows, k);
      LineNoNewline(category, k, rows[k]);
    }
  }

  /**
    When no user id holds a newline, the board reads back as its header,
    an empty line and exactly one line per row: rows.length + 2 lines.
  */
  lemma ContentLines(category: string, rows: seq<Row>)
    requires forall i :: 0 <= i < |rows| ==> NoNewline(rows[i].userId)
    ensures var parts := Split(Content(category, rows), '\n');
      && |parts| == |rows| + 2
      && parts[0] == Header(category) && parts[1] == ""
      && forall i :: 0 <= i < |rows| ==> parts[i + 2] == Line(category, i, rows[i])
  {
    var ls := Lines(category, rows);
    HeaderNoNewline(category);
    LinesNoNewline(category, rows);
    BoardSplitsBack(Header(category), ls);
    forall i | 0 <= i < |rows| ensures ([Header(category), ""] + ls)[i + 2] == Line(category, i, rows[i]) {
      LineAt(category, rows, i);
    }
  }
}
