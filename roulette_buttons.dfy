/**
  The buttons of src/commands/roulette.js: the twelve bet-type buttons of
  the first stage, and the follow-up rows offered for dozen, column,
  street, line and corner bets. A follow-up button's custom id is taken
  apart again by `interact` (`split('_')[3]`); the lemmas here show that
  what comes back covers exactly the numbers the button's label names.
*/
module RouletteButtons {
  import opened Wrappers
  import opened JsNum
  import opened RouletteTable

  /**
    A button, given by what it selects: a bet type of the first stage (with
    its caption), or a number for a bet type of the second. `Id` and `Text`
    render its `custom_id` and its label.
  */
  datatype Button = TypeChoice(betType: string, caption: string) | Pick(kind: string, n: int)

  function Id(b: Button): string {
    match b
    case TypeChoice(t, _) => "roulette_type_" + t
    case Pick(kind, n) => SelectId(kind, n)
  }

  const DozenLabels: seq<string> := ["1st Dozen (1-12)", "2nd Dozen (13-24)", "3rd Dozen (25-36)"]

  function Text(b: Button): string {
    match b
    case TypeChoice(_, caption) => caption
    case Pick(kind, n) =>
      if kind in DashedKinds then Dashed(LabelNumbers(kind, n))
      else if kind == "dozen" then (if 1 <= n <= 3 then DozenLabels[n - 1] else "")
      else if kind == "column" then "Column " + IntToString(n)
      else ""
  }

  const DashedKinds: set<string> := {"street", "line", "corner"}

  /** The numbers a street, line or corner label shows: `${n}-${n+1}-${n+2}`, `${n}-${n+5}`, ... */
  function LabelNumbers(kind: string, n: int): (ns: seq<int>)
    requires kind in DashedKinds
    ensures |ns| >= 2 && ns[0] == n && forall i :: 0 <= i < |ns| ==> n <= ns[i] <= n + 5
  {
    if kind == "street" then [n, n + 1, n + 2]
    else if kind == "line" then [n, n + 5]
    else [n, n + 1, n + 3, n + 4]
  }

  // ------------------------------------------------------------ custom ids

  /** `customId.split('_')[3]`, which is `undefined` when there are fewer than four parts. */
  function SelectionOf(customId: string): (sel: Option<string>)
    ensures sel.Some? <==> |Split(customId, '_')| >= 4
    ensures sel.Some? ==> '_' !in sel.value
  {
    var parts := Split(customId, '_');
    if |parts| >= 4 then Some(parts[3]) else None
  }

  /** `roulette_select_${kind}_${n}`. */
  function SelectId(kind: string, n: int): string {
    "roulette_select_" + kind + "_" + IntToString(n)
  }

  /** The selection read back from a select button's id is the number it was built from. */
  lemma SelectIdRoundTrip(kind: string, n: int)
    requires '_' !in kind
    ensures SelectionOf(SelectId(kind, n)) == Some(IntToString(n))
  {
    var x := IntToString(n);
    NotInNumber(n, '_');
    var parts := ["roulette", "select", kind, x];
    assert Join(parts[3..], '_') == x;
    assert Join(parts[2..], '_') == kind + "_" + x;
    assert Join(parts[1..], '_') == "select" + "_" + (kind + "_" + x);
    assert Join(parts, '_') == SelectId(kind, n);
    SplitJoin(parts, '_');
  }

  /** The selection of a select button parses back to its number. */
  lemma SelectionParses(kind: string, n: int)
    requires '_' !in kind
    ensures ParseSelection(SelectionOf(SelectId(kind, n))) == Some(n)
  {
    SelectIdRoundTrip(kind, n);
    ParseIntOfString(n);
  }

  /** The selection of a follow-up button parses back to its number. */
  lemma PickParses(kind: string, n: int)
    requires '_' !in kind
    ensures ParseSelection(SelectionOf(Id(Pick(kind, n)))) == Some(n)
  {
    SelectionParses(kind, n);
  }

  // ---------------------------------------------------------------- labels

  /** Numbers written `${a}-${b}-...`, the form of the street, line and corner labels. */
  function Dashed(ns: seq<int>): string
    requires |ns| >= 1
  {
    if |ns| == 1 then IntToString(ns[0]) else IntToString(ns[0]) + "-" + Dashed(ns[1..])
  }

  function Printed(ns: seq<int>): (ps: seq<string>)
    ensures |ps| == |ns| && forall i :: 0 <= i < |ns| ==> ps[i] == IntToString(ns[i])
  {
    seq(|ns|, i requires 0 <= i < |ns| => IntToString(ns[i]))
  }

  lemma {:induction false} DashedIsJoin(ns: seq<int>)
    requires |ns| >= 1
    ensures Dashed(ns) == Join(Printed(ns), '-')
    decreases |ns|
  {
    if |ns| > 1 {
      DashedIsJoin(ns[1..]);
      assert Printed(ns)[1..] == Printed(ns[1..]);
    }
  }

  /** A label of non-negative numbers splits on '-' back into those numbers. */
  lemma DashedReadsBack(ns: seq<int>)
    requires |ns| >= 1 && forall i :: 0 <= i < |ns| ==> ns[i] >= 0
    ensures Split(Dashed(ns), '-') == Printed(ns)
  {
    DashedIsJoin(ns);
    forall k | 0 <= k < |ns| ensures '-' !in Printed(ns)[k] {
      assert IsDigits(Printed(ns)[k]);
    }
    SplitJoin(Printed(ns), '-');
  }

  /** A street, line or corner label on a non-negative start splits back into its numbers. */
  lemma PickLabelReadsBack(kind: string, n: int)
    requires kind in DashedKinds && n >= 0
    ensures Split(Text(Pick(kind, n)), '-') == Printed(LabelNumbers(kind, n))
  {
    DashedReadsBack(LabelNumbers(kind, n));
  }

  // ------------------------------------------------------ bet-type buttons

  const TypeIds: seq<string> := ["single", "split", "street", "corner", "five", "line",
                                 "dozen", "column", "low", "high", "red", "black"]

  const TypeLabels: seq<string> := ["Single (35:1)", "Split (17:1)", "Street (11:1)", "Corner (8:1)",
                                    "Five (6:1)", "Line (5:1)", "Dozen (2:1)", "Column (2:1)",
                                    "1-18 (1:1)", "19-36 (1:1)", "\U{1F534} Red (1:1)", "\U{26AB} Black (1:1)"]

  function TypeButton(k: nat): Button
    requires k < 12
  {
    TypeChoice(TypeIds[k], TypeLabels[k])
  }

  /** `rouletteButtons()`: three rows of four bet-type buttons. */
  function TypeButtons(): (rows: seq<seq<Button>>)
    ensures |rows| == 3 && forall r :: 0 <= r < 3 ==> |rows[r]| == 4
    ensures forall r, j :: 0 <= r < 3 && 0 <= j < 4 ==> rows[r][j] == TypeButton(4 * r + j)
  {
    seq(3, r requires 0 <= r < 3 => seq(4, j requires 0 <= j < 4 => TypeButton(4 * r + j)))
  }

  /** The bet-type buttons offer exactly the bet types of the payout table, each once. */
  lemma TypeButtonsNameEveryBet(t: string)
    ensures t in PayoutTypes <==> exists k :: 0 <= k < 12 && Id(TypeButton(k)) == "roulette_type_" + t
    ensures forall k, m :: 0 <= k < m < 12 ==> Id(TypeButton(k)) != Id(TypeButton(m))
  {
    forall k | 0 <= k < 12 ensures Id(TypeButton(k))[14..] == TypeIds[k] {
    }
    assert forall k :: 0 <= k < 12 ==> TypeIds[k] in PayoutTypes;
    if t in PayoutTypes {
      assert t in TypeIds;
      var k :| 0 <= k < 12 && TypeIds[k] == t;
      assert Id(TypeButton(k)) == "roulette_type_" + t;
    }
    forall k, m | 0 <= k < m < 12 ensures Id(TypeButton(k)) != Id(TypeButton(m)) {
      assert TypeIds[k] != TypeIds[m];
      assert Id(TypeButton(k))[14..] != Id(TypeButton(m))[14..];
    }
  }

  // ------------------------------------------------------ follow-up buttons

  function DozenButtons(): seq<Button> {
    [Pick("dozen", 1), Pick("dozen", 2), Pick("dozen", 3)]
  }

  function ColumnButtons(): seq<Button> {
    [Pick("column", 1), Pick("column", 2), Pick("column", 3)]
  }

  function StreetStart(k: int): int { 3 * k + 1 }

  /** The twelve street buttons, one per row of the layout. */
  function Streets(): (bs: seq<Button>)
    ensures |bs| == 12 && forall k :: 0 <= k < 12 ==> bs[k] == Pick("street", StreetStart(k))
  {
    seq(12, k requires 0 <= k < 12 => Pick("street", StreetStart(k)))
  }

  const LineStarts: seq<int> := [1, 4, 7, 10, 13, 16, 19, 22, 25, 28, 31]

  function Lines(): (bs: seq<Button>)
    ensures |bs| == 11 && forall k :: 0 <= k < 11 ==> bs[k] == Pick("line", LineStarts[k])
  {
    seq(11, k requires 0 <= k < 11 => Pick("line", LineStarts[k]))
  }

  /** The top-left cell of the k-th generated corner: row k/2, column k%2. */
  function CornerStart(k: int): int { 3 * (k / 2) + 1 + k % 2 }

  function Corners(): (bs: seq<Button>)
    ensures |bs| == 22 && forall k :: 0 <= k < 22 ==> bs[k] == Pick("corner", CornerStart(k))
  {
    seq(22, k requires 0 <= k < 22 => Pick("corner", CornerStart(k)))
  }

  /** Consecutive slices of n, the last one possibly shorter. */
  function Chunks<T>(xs: seq<T>, n: nat): seq<seq<T>>
    requires n >= 1
    decreases |xs|
  {
    if xs == [] then [] else
      var k := Min(n, |xs|);
      [xs[..k]] + Chunks(xs[k..], n)
  }

  function Flatten<T>(rows: seq<seq<T>>): seq<T> {
    if rows == [] then [] else rows[0] + Flatten(rows[1..])
  }

  /** Cutting into rows loses and reorders nothing, and every row holds 1..n items. */
  lemma {:induction false} ChunksFlatten<T>(xs: seq<T>, n: nat)
    requires n >= 1
    ensures Flatten(Chunks(xs, n)) == xs
    ensures forall r :: 0 <= r < |Chunks(xs, n)| ==> 1 <= |Chunks(xs, n)[r]| <= n
    decreases |xs|
  {
    if xs != [] {
      var k := Min(n, |xs|);
      ChunksFlatten(xs[k..], n);
      var rows := Chunks(xs, n);
      assert rows[1..] == Chunks(xs[k..], n);
      assert xs[..k] + xs[k..] == xs;
      assert forall r :: 1 <= r < |rows| ==> rows[r] == Chunks(xs[k..], n)[r - 1];
    }
  }

  /** `getFollowUpButtons(betType)`; any type without a follow-up gets no rows. */
  function FollowUpRows(betType: string): seq<seq<Button>> {
    if betType == "dozen" then [DozenButtons()]
    else if betType == "column" then [ColumnButtons()]
    else if betType == "street" then Chunks(Streets(), 5)
    else if betType == "line" then Chunks(Lines(), 5)
    else if betType == "corner" then Chunks(Corners(), 5)
    else []
  }

  /** The street loop: `i = 1, 4, ..., 34`. */
  method StreetButtons() returns (bs: seq<Button>)
    ensures bs == Streets()
  {
    bs := [];
    var i := 1;
    while i <= 34
      invariant i == StreetStart(|bs|) && |bs| <= 12
      invariant forall k :: 0 <= k < |bs| ==> bs[k] == Pick("street", StreetStart(k))
    {
      bs := bs + [Pick("street", i)];
      i := i + 3;
    }
  }

  lemma CornerStartAt(r: int, c: int)
    requires 0 <= r && 0 <= c < 2
    ensures CornerStart(2 * r + c) == 3 * r + 1 + c
  {
  }

  /** The inner corner loop: columns 0 and 1 of the row starting at `row`. */
  method CornerRow(row: int) returns (bs: seq<Button>)
    ensures bs == [Pick("corner", row), Pick("corner", row + 1)]
  {
    bs := [];
    var col := 0;
    while col < 2
      invariant 0 <= col <= 2 && |bs| == col
      invariant forall c :: 0 <= c < col ==> bs[c] == Pick("corner", row + c)
    {
      bs := bs + [Pick("corner", row + col)];
      col := col + 1;
    }
  }

  /** The outer corner loop: rows `1, 4, ..., 31`. */
  method CornerButtons() returns (bs: seq<Button>)
    ensures bs == Corners()
  {
    bs := [];
    var row, r := 1, 0;
    while row <= 33
      invariant row == 3 * r + 1 && |bs| == 2 * r && r <= 11
      invariant forall k :: 0 <= k < |bs| ==> bs[k] == Pick("corner", CornerStart(k))
    {
      var pair := CornerRow(row);
      CornerStartAt(r, 0);
      CornerStartAt(r, 1);
      bs := bs + pair;
      row, r := row + 3, r + 1;
    }
  }

  /** The "rows of 5" loop. */
  method Rows(bs: seq<Button>) returns (rows: seq<seq<Button>>)
    ensures rows == Chunks(bs, 5)
  {
    rows := [];
    var i := 0;
    while i < |bs|
      invariant 0 <= i <= |bs|
      invariant rows + Chunks(bs[i..], 5) == Chunks(bs, 5)
    {
      var j := Min(i + 5, |bs|);
      assert bs[i..][..j - i] == bs[i..j] && bs[i..][j - i..] == bs[j..];
      rows := rows + [bs[i..j]];
      i := j;
    }
  }

  method FollowUpButtons(betType: string) returns (rows: seq<seq<Button>>)
    ensures rows == FollowUpRows(betType)
  {
    if betType == "dozen" {
      rows := [DozenButtons()];
    } else if betType == "column" {
      rows := [ColumnButtons()];
    } else if betType == "street" {
      var bs := StreetButtons();
      rows := Rows(bs);
    } else if betType == "line" {
      rows := Rows(Lines());
    } else if betType == "corner" {
      var bs := CornerButtons();
      rows := Rows(bs);
    } else {
      rows := [];
    }
  }

  // ---------------------------------------------------------- what they cover

  /** The k-th street start begins row k of the layout, in its first column. */
  lemma StreetGeometry(k: int)
    requires 0 <= k < 12
    ensures var t := StreetStart(k); 1 <= t && t + 2 <= 36 && Row(t) == k && Row(t + 2) == k && Col(t) == 0
  {
    assert 3 * k / 3 == k && (3 * k + 2) / 3 == k;
  }

  /** The k-th corner start is the top-left cell of a 2 x 2 block of the layout. */
  lemma CornerGeometry(k: int)
    requires 0 <= k < 22
    ensures var t := CornerStart(k);
      && 1 <= t && t + 4 <= 36 && Col(t) < 2
      && Row(t + 1) == Row(t) && Col(t + 1) == Col(t) + 1
      && Row(t + 3) == Row(t) + 1 && Col(t + 3) == Col(t)
  {
    var r, c := k / 2, k % 2;
    CornerStartAt(r, c);
    assert (3 * r + c) / 3 == r && (3 * r + c) % 3 == c;
    assert (3 * r + c + 1) / 3 == r && (3 * r + c + 1) % 3 == c + 1;
    assert (3 * r + c + 3) / 3 == r + 1 && (3 * r + c + 3) % 3 == c;
  }

  /** A street button covers exactly the three numbers its label shows. */
  lemma StreetPickCovers(t: int)
    ensures BetNumbers(Street, SelectionOf(Id(Pick("street", t)))) == Some(Nums(LabelNumbers("street", t)))
  {
    PickParses("street", t);
    StreetBet(SelectionOf(Id(Pick("street", t))), t);
  }

  /** A line button covers the six numbers from its label's first number to its last. */
  lemma LinePickCovers(t: int)
    ensures BetNumbers(Line, SelectionOf(Id(Pick("line", t)))) == Some(Nums(Run(t, 6)))
    ensures LabelNumbers("line", t) == [Run(t, 6)[0], Run(t, 6)[5]]
  {
    PickParses("line", t);
    LineBet(SelectionOf(Id(Pick("line", t))), t);
  }

  /** A corner button covers exactly the four numbers its label shows. */
  lemma CornerPickCovers(t: int)
    ensures BetNumbers(Corner, SelectionOf(Id(Pick("corner", t)))) == Some(Nums(LabelNumbers("corner", t)))
  {
    PickParses("corner", t);
    CornerBet(SelectionOf(Id(Pick("corner", t))), t);
  }

  /** The k-th street button covers row k of the layout. */
  lemma StreetButtonCovers(k: int)
    requires 0 <= k < 12
    ensures var t := StreetStart(k);
      && BetNumbers(Street, SelectionOf(Id(Streets()[k]))) == Some(Nums(LabelNumbers("street", t)))
      && 1 <= t && t + 2 <= 36 && Row(t) == k && Row(t + 2) == k && Col(t) == 0
  {
    StreetPickCovers(StreetStart(k));
    StreetGeometry(k);
  }

  /** The k-th line button covers rows k and k+1 of the layout. */
  lemma LineButtonCovers(k: int)
    requires 0 <= k < 11
    ensures var t := LineStarts[k];
      && BetNumbers(Line, SelectionOf(Id(Lines()[k]))) == Some(Nums(Run(t, 6)))
      && t == StreetStart(k) && t + 5 <= 36 && Row(t) == k && Row(t + 5) == k + 1
  {
    LinePickCovers(LineStarts[k]);
    LineGeometry(k);
  }

  lemma LineGeometry(k: int)
    requires 0 <= k < 11
    ensures var t := LineStarts[k]; t == StreetStart(k) && t + 5 <= 36 && Row(t) == k && Row(t + 5) == k + 1
  {
    assert LineStarts[k] == StreetStart(k);
    assert 3 * k / 3 == k && (3 * k + 5) / 3 == k + 1;
  }

  /** The k-th corner button covers a 2 x 2 block of the layout. */
  lemma CornerButtonCovers(k: int)
    requires 0 <= k < 22
    ensures var t := CornerStart(k);
      && BetNumbers(Corner, SelectionOf(Id(Corners()[k]))) == Some(Nums(LabelNumbers("corner", t)))
      && 1 <= t && t + 4 <= 36 && Col(t) < 2
      && Row(t + 1) == Row(t) && Col(t + 1) == Col(t) + 1
      && Row(t + 3) == Row(t) + 1 && Col(t + 3) == Col(t)
  {
    CornerPickCovers(CornerStart(k));
    CornerGeometry(k);
  }

  /** The corners offered are exactly the cells of 1..32 outside column 3, in increasing order. */
  lemma CornerStartsExactly(t: int)
    ensures (exists k :: 0 <= k < 22 && CornerStart(k) == t) <==> 1 <= t <= 32 && t % 3 != 0
    ensures forall k, m :: 0 <= k < m < 22 ==> CornerStart(k) < CornerStart(m)
  {
    if 1 <= t <= 32 && t % 3 != 0 {
      var k := 2 * ((t - 1) / 3) + (t - 1) % 3;
      assert CornerStart(k) == t;
    }
  }

  /** The n-th button of a row of picks numbered from 1 selects n. */
  lemma {:induction false} NumberedPickSelects(bs: seq<Button>, kind: string, n: int)
    requires '_' !in kind && 1 <= n <= |bs| && bs[n - 1] == Pick(kind, n)
    ensures SelectionOf(Id(bs[n - 1])) == Some(NatToString(n))
  {
    SelectIdRoundTrip(kind, n);
  }

  /** A dozen button selects its number. */
  lemma DozenButtonSelects(n: int)
    requires 1 <= n <= 3
    ensures SelectionOf(Id(DozenButtons()[n - 1])) == Some(NatToString(n))
  {
    var kind := "dozen";
    assert kind == ['d', 'o', 'z', 'e', 'n'];
    NumberedPickSelects(DozenButtons(), kind, n);
  }

  /** A column button selects its number. */
  lemma ColumnButtonSelects(n: int)
    requires 1 <= n <= 3
    ensures SelectionOf(Id(ColumnButtons()[n - 1])) == Some(NatToString(n))
  {
    var kind := "column";
    assert kind == ['c', 'o', 'l', 'u', 'm', 'n'];
    NumberedPickSelects(ColumnButtons(), kind, n);
  }
}
