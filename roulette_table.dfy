/**
  The American roulette table of src/commands/roulette.js: the wheel, the
  numbers each bet covers (`getBetNumbers`), the payout table
  (`getPayout`) and the checks of the number typed into the single and
  split modals.
*/
module RouletteTable {
  import opened Wrappers
  import opened JsNum

  /**
    A value on the wheel or in a bet list: an integer, the string "00", or
    the NaN that `parseInt` gives for text without digits.
  */
  datatype Pocket = Num(n: int) | DoubleZero | NaN

  /** What `spinWheel` picks from: 0, "00", then 1..36. */
  function Wheel(): (w: seq<Pocket>)
    ensures |w| == 38 && w[0] == Num(0) && w[1] == DoubleZero
    ensures forall i :: 2 <= i < 38 ==> w[i] == Num(i - 1)
  {
    [Num(0), DoubleZero] + seq(36, i requires 0 <= i < 36 => Num(i + 1))
  }

  /** NaN is never on the wheel, so a bet list holding NaN never wins through it. */
  lemma WheelPockets(p: Pocket)
    ensures p in Wheel() <==> p == DoubleZero || (p.Num? && 0 <= p.n <= 36)
  {
    if p.Num? && 1 <= p.n <= 36 {
      assert Wheel()[p.n + 1] == p;
    }
  }

  const Reds: seq<int> := [1, 3, 5, 7, 9, 12, 14, 16, 18, 19, 21, 23, 25, 27, 30, 32, 34, 36]
  const Blacks: seq<int> := [2, 4, 6, 8, 10, 11, 13, 15, 17, 20, 22, 24, 26, 28, 29, 31, 33, 35]

  const Column1: seq<int> := [1, 4, 7, 10, 13, 16, 19, 22, 25, 28, 31, 34]
  const Column2: seq<int> := [2, 5, 8, 11, 14, 17, 20, 23, 26, 29, 32, 35]
  const Column3: seq<int> := [3, 6, 9, 12, 15, 18, 21, 24, 27, 30, 33, 36]

  /** The usual colouring: odd is red in 1..10 and 19..28, even is red in 11..18 and 29..36. */
  predicate RedRule(x: int) {
    if 1 <= x <= 10 || 19 <= x <= 28 then x % 2 == 1 else x % 2 == 0
  }

  /**
    Red and black have 18 numbers each, no number is both, and together
    they are exactly 1..36, coloured by the usual rule.
  */
  lemma RedBlackPartition(x: int)
    ensures |Reds| == 18 && |Blacks| == 18
    ensures x in Reds <==> 1 <= x <= 36 && RedRule(x)
    ensures x in Blacks <==> 1 <= x <= 36 && !RedRule(x)
  {
    RedsAreRed();
    BlacksAreBlack();
    if 1 <= x <= 36 {
      if RedRule(x) {
        var i := if x <= 10 then (x - 1) / 2 else if x <= 18 then (x - 2) / 2
                 else if x <= 28 then (x - 1) / 2 else (x - 2) / 2;
        assert Reds[i] == x;
      } else {
        var i := if x <= 10 then (x - 2) / 2 else if x <= 18 then (x - 1) / 2
                 else if x <= 28 then (x - 2) / 2 else (x - 1) / 2;
        assert Blacks[i] == x;
      }
    }
  }

  lemma RedsAreRed()
    ensures forall i :: 0 <= i < |Reds| ==> 1 <= Reds[i] <= 36 && RedRule(Reds[i])
  {
  }

  lemma BlacksAreBlack()
    ensures forall i :: 0 <= i < |Blacks| ==> 1 <= Blacks[i] <= 36 && !RedRule(Blacks[i])
  {
  }

  /** The k-th column list holds the numbers of 1..36 that are k modulo 3. */
  lemma ColumnCovers(x: int)
    ensures x in Column1 <==> 1 <= x <= 36 && x % 3 == 1
    ensures x in Column2 <==> 1 <= x <= 36 && x % 3 == 2
    ensures x in Column3 <==> 1 <= x <= 36 && x % 3 == 0
  {
    ColumnsSound();
    ColumnsStepByThree();
    if 1 <= x <= 36 {
      var i, r := (x - 1) / 3, (x - 1) % 3;
      assert x == 3 * i + r + 1 && 0 <= i < 12;
      if r == 0 {
        assert Column1[i] == x;
      } else if r == 1 {
        assert Column2[i] == x;
      } else {
        assert Column3[i] == x;
      }
    }
  }

  lemma ColumnsStepByThree()
    ensures |Column1| == 12 && |Column2| == 12 && |Column3| == 12
    ensures forall i :: 0 <= i < 12 ==> Column1[i] == 3 * i + 1 && Column2[i] == 3 * i + 2 && Column3[i] == 3 * i + 3
  {
  }

  lemma ColumnsSound()
    ensures forall i :: 0 <= i < |Column1| ==> 1 <= Column1[i] <= 36 && Column1[i] % 3 == 1
    ensures forall i :: 0 <= i < |Column2| ==> 1 <= Column2[i] <= 36 && Column2[i] % 3 == 2
    ensures forall i :: 0 <= i < |Column3| ==> 1 <= Column3[i] <= 36 && Column3[i] % 3 == 0
  {
  }

  function Nums(xs: seq<int>): (ps: seq<Pocket>)
    ensures |ps| == |xs| && forall i :: 0 <= i < |xs| ==> ps[i] == Num(xs[i])
  {
    seq(|xs|, i requires 0 <= i < |xs| => Num(xs[i]))
  }

  /** `Array.from({length: count}, (_, i) => start + i)`. */
  function Run(start: int, count: nat): (xs: seq<int>)
    ensures |xs| == count && forall i :: 0 <= i < count ==> xs[i] == start + i
  {
    seq(count, i requires 0 <= i < count => start + i)
  }

  /** `start + off` for each offset, NaN throughout when `start` is NaN. */
  function Offsets(start: Option<int>, offs: seq<int>): (ps: seq<Pocket>)
    ensures |ps| == |offs|
  {
    seq(|offs|, i requires 0 <= i < |offs| => if start.Some? then Num(start.value + offs[i]) else NaN)
  }

  /** `parseInt(selection)`; `null` parses as NaN. */
  function ParseSelection(selection: Option<string>): Option<int> {
    if selection.None? then None else ParseInt(selection.value)
  }

  function PocketOf(v: Option<int>): Pocket {
    if v.Some? then Num(v.value) else NaN
  }

  function SplitPockets(parts: seq<string>): (ps: seq<Pocket>)
    ensures |ps| == |parts|
  {
    seq(|parts|, i requires 0 <= i < |parts| => PocketOf(ParseInt(Trim(parts[i]))))
  }

  /** The bet types a `betType` string names; `Unknown` for any other string and for `undefined`. */
  datatype BetKind = Single | SplitBet | Street | Corner | Five | Line | Dozen | Column
                   | Low | High | Red | Black | Unknown

  /** The bet types of the payout table. */
  const PayoutTypes: set<string> := {"single", "split", "street", "corner", "five", "line",
                                     "dozen", "column", "low", "high", "red", "black"}

  function KindOf(betType: Option<string>): (k: BetKind)
    ensures k != Unknown <==> betType.Some? && betType.value in PayoutTypes
  {
    if betType.None? then Unknown
    else
      var t := betType.value;
      if t == "single" then Single else if t == "split" then SplitBet else if t == "street" then Street
      else if t == "corner" then Corner else if t == "five" then Five else if t == "line" then Line
      else if t == "dozen" then Dozen else if t == "column" then Column else if t == "low" then Low
      else if t == "high" then High else if t == "red" then Red else if t == "black" then Black
      else Unknown
  }

  /**
    `getBetNumbers(betType, selection)`: the pockets a bet covers. The
    result is `None` where the code throws: `split` with no selection
    string.
  */
  function BetNumbers(kind: BetKind, selection: Option<string>): Option<seq<Pocket>> {
    match kind
    case Red => Some(Nums(Reds))
    case Black => Some(Nums(Blacks))
    case Low => Some(Nums(Run(1, 18)))
    case High => Some(Nums(Run(19, 18)))
    case Five => Some([Num(0), DoubleZero, Num(1), Num(2), Num(3)])
    case Single => Some([if selection == Some("00") then DoubleZero else PocketOf(ParseSelection(selection))])
    case SplitBet => if selection.None? then None else Some(SplitPockets(Split(selection.value, ',')))
    case Dozen =>
      if selection == Some("1") then Some(Nums(Run(1, 12)))
      else if selection == Some("2") then Some(Nums(Run(13, 12)))
      else if selection == Some("3") then Some(Nums(Run(25, 12)))
      else Some([])
    case Column =>
      if selection == Some("1") then Some(Nums(Column1))
      else if selection == Some("2") then Some(Nums(Column2))
      else if selection == Some("3") then Some(Nums(Column3))
      else Some([])
    case Street => Some(Offsets(ParseSelection(selection), [0, 1, 2]))
    case Line => Some(Offsets(ParseSelection(selection), [0, 1, 2, 3, 4, 5]))
    case Corner => Some(Offsets(ParseSelection(selection), [0, 1, 3, 4]))
    case Unknown => Some([])
  }

  /** Red, black, low and high cover the table numbers their names say. */
  lemma EvenMoneyBets(x: int, sel: Option<string>)
    ensures Num(x) in BetNumbers(Red, sel).value <==> 1 <= x <= 36 && RedRule(x)
    ensures Num(x) in BetNumbers(Black, sel).value <==> 1 <= x <= 36 && !RedRule(x)
    ensures Num(x) in BetNumbers(Low, sel).value <==> 1 <= x <= 18
    ensures Num(x) in BetNumbers(High, sel).value <==> 19 <= x <= 36
  {
    RedBlackPartition(x);
    assert Num(x) in Nums(Reds) <==> x in Reds;
    assert Num(x) in Nums(Blacks) <==> x in Blacks;
    if 1 <= x <= 18 {
      assert Nums(Run(1, 18))[x - 1] == Num(x);
    }
    if 19 <= x <= 36 {
      assert Nums(Run(19, 18))[x - 19] == Num(x);
    }
  }

  /**
    Dozen n covers 12(n-1)+1..12n and column n the numbers of 1..36 that
    are n modulo 3; any selection other than "1", "2", "3" covers nothing.
  */
  lemma DozenAndColumnBets(x: int, n: int, sel: Option<string>)
    requires 1 <= n <= 3 && sel == Some(NatToString(n))
    ensures Num(x) in BetNumbers(Dozen, sel).value <==> 12 * (n - 1) + 1 <= x <= 12 * n
    ensures Num(x) in BetNumbers(Column, sel).value <==> 1 <= x <= 36 && x % 3 == n % 3
  {
    ColumnCovers(x);
    assert NatToString(1) == "1" && NatToString(2) == "2" && NatToString(3) == "3";
    var start := 12 * (n - 1) + 1;
    assert BetNumbers(Dozen, sel).value == Nums(Run(start, 12));
    if start <= x < start + 12 {
      assert Nums(Run(start, 12))[x - start] == Num(x);
    }
    assert Num(x) in Nums(Column1) <==> x in Column1;
    assert Num(x) in Nums(Column2) <==> x in Column2;
    assert Num(x) in Nums(Column3) <==> x in Column3;
  }

  lemma StreetOffsets(t: int)
    ensures Offsets(Some(t), [0, 1, 2]) == Nums([t, t + 1, t + 2])
  {
  }

  lemma LineOffsets(t: int)
    ensures Offsets(Some(t), [0, 1, 2, 3, 4, 5]) == Nums(Run(t, 6))
  {
  }

  lemma CornerOffsets(t: int)
    ensures Offsets(Some(t), [0, 1, 3, 4]) == Nums([t, t + 1, t + 3, t + 4])
  {
  }

  /** A street on a start that parses to t covers t, t+1, t+2. */
  lemma StreetBet(sel: Option<string>, t: int)
    requires ParseSelection(sel) == Some(t)
    ensures BetNumbers(Street, sel) == Some(Nums([t, t + 1, t + 2]))
  {
    StreetOffsets(t);
  }

  /** A line on a start that parses to t covers the six numbers t..t+5. */
  lemma LineBet(sel: Option<string>, t: int)
    requires ParseSelection(sel) == Some(t)
    ensures BetNumbers(Line, sel) == Some(Nums(Run(t, 6)))
  {
    LineOffsets(t);
  }

  /** A corner on a start that parses to t covers t, t+1, t+3, t+4. */
  lemma CornerBet(sel: Option<string>, t: int)
    requires ParseSelection(sel) == Some(t)
    ensures BetNumbers(Corner, sel) == Some(Nums([t, t + 1, t + 3, t + 4]))
  {
    CornerOffsets(t);
  }

  /** An inside bet on a start that does not parse holds only NaN, which no spin matches. */
  lemma InsideBetsOnNaN(sel: Option<string>, q: Pocket)
    requires ParseSelection(sel).None?
    ensures (q in BetNumbers(Street, sel).value || q in BetNumbers(Line, sel).value
             || q in BetNumbers(Corner, sel).value) ==> q == NaN
  {
    var p := ParseSelection(sel);
    assert BetNumbers(Street, sel) == Some(Offsets(p, [0, 1, 2]));
    assert BetNumbers(Line, sel) == Some(Offsets(p, [0, 1, 2, 3, 4, 5]));
    assert BetNumbers(Corner, sel) == Some(Offsets(p, [0, 1, 3, 4]));
    OffsetsOfNaN([0, 1, 2], q);
    OffsetsOfNaN([0, 1, 2, 3, 4, 5], q);
    OffsetsOfNaN([0, 1, 3, 4], q);
  }

  /** Offsets from a start that did not parse are all NaN. */
  lemma OffsetsOfNaN(offs: seq<int>, q: Pocket)
    ensures q in Offsets(None, offs) ==> q == NaN
  {
  }

  /** `getPayout`: the odds paid on a win, 0 for a type not in the table. */
  function Payout(kind: BetKind): (r: nat)
    ensures r > 0 <==> kind != Unknown
  {
    match kind
    case Single => 35
    case SplitBet => 17
    case Street => 11
    case Corner => 8
    case Five => 6
    case Line => 5
    case Dozen => 2
    case Column => 2
    case Low => 1
    case High => 1
    case Red => 1
    case Black => 1
    case Unknown => 0
  }

  /**
    The table pays what a fair 36-pocket wheel would, rounded down: a bet
    covering n numbers pays 36 / n - 1 to one. The outside bets:
  */
  lemma OutsidePayoutFromCoverage(kind: BetKind, sel: Option<string>)
    requires kind in {Red, Black, Low, High, Five, Dozen, Column}
    requires kind == Dozen || kind == Column ==> sel == Some("1") || sel == Some("2") || sel == Some("3")
    ensures var ns := BetNumbers(kind, sel).value; |ns| > 0 && Payout(kind) == 36 / |ns| - 1
  {
    var ns := BetNumbers(kind, sel).value;
    match kind {
      case Red => assert |ns| == |Reds| == 18;
      case Black => assert |ns| == |Blacks| == 18;
      case Low => assert |ns| == 18;
      case High => assert |ns| == 18;
      case Five => assert |ns| == 5;
      case Dozen => assert |ns| == 12;
      case Column => ColumnsStepByThree(); assert |ns| == 12;
    }
  }

  /** The same for the inside bets (a split on its two numbers). */
  lemma InsidePayoutFromCoverage(kind: BetKind, sel: Option<string>)
    requires kind in {Single, SplitBet, Street, Line, Corner} && BetNumbers(kind, sel).Some?
    requires kind == SplitBet ==> |BetNumbers(kind, sel).value| == 2
    ensures var ns := BetNumbers(kind, sel).value; |ns| > 0 && Payout(kind) == 36 / |ns| - 1
  {
    var ns := BetNumbers(kind, sel).value;
    match kind {
      case Single =>
        assert |ns| == 1;
      case SplitBet =>
        assert 36 / 2 - 1 == 17;
      case Street =>
        assert |ns| == 3 && 36 / 3 - 1 == 11;
      case Line =>
        assert |ns| == 6 && 36 / 6 - 1 == 5;
      case Corner =>
        assert |ns| == 4 && 36 / 4 - 1 == 8;
    }
  }

  // ---------------------------------------------------------- modal checks

  /** The layout row and column of a table number. */
  function Row(x: int): int { (x - 1) / 3 }
  function Col(x: int): int { (x - 1) % 3 }

  function Dist(a: int, b: int): nat {
    if a < b then b - a else a - b
  }

  /** The split modal's test: same row and one apart, or three apart. */
  predicate Adjacent(a: int, b: int) {
    (Row(a) == Row(b) && Dist(a, b) == 1) || Dist(a, b) == 3
  }

  /** On the 12 x 3 layout, the split test accepts exactly two cells that share an edge. */
  lemma AdjacentIffNeighbours(a: int, b: int)
    requires 1 <= a <= 36 && 1 <= b <= 36
    ensures Adjacent(a, b) <==>
      (Row(a) == Row(b) && Dist(Col(a), Col(b)) == 1) || (Col(a) == Col(b) && Dist(Row(a), Row(b)) == 1)
  {
    assert a - 1 == 3 * Row(a) + Col(a) && b - 1 == 3 * Row(b) + Col(b);
    assert 0 <= Col(a) < 3 && 0 <= Col(b) < 3;
  }

  datatype Rejection = BadSingle | BadSplit | OutOfRange | NotAdjacent

  datatype Checked = Valid(selection: string) | Invalid(why: Rejection)

  /** The single modal: "0", "00", or a `parseInt` in 1..36, after trimming. */
  function CheckSingle(input: string): Checked {
    var num := Trim(input);
    if num == "0" || num == "00" then Valid(num)
    else
      var v := ParseInt(num);
      if v.None? || v.value < 1 || v.value > 36 then Invalid(BadSingle)
      else Valid(num)
  }

  function TrimAll(parts: seq<string>): (ts: seq<string>)
    ensures |ts| == |parts|
  {
    seq(|parts|, i requires 0 <= i < |parts| => Trim(parts[i]))
  }

  /**
    The split modal: two comma-separated numbers (`isNaN`, then `Number`),
    both in 1..36 and adjacent; the accepted selection is `${a},${b}`.
  */
  function CheckSplit(input: string): Checked {
    var numbers := TrimAll(Split(input, ','));
    if |numbers| != 2 || NumberOf(numbers[0]).None? || NumberOf(numbers[1]).None? then Invalid(BadSplit)
    else
      var a, b := NumberOf(numbers[0]).value, NumberOf(numbers[1]).value;
      if a < 1 || a > 36 || b < 1 || b > 36 then Invalid(OutOfRange)
      else if !Adjacent(a, b) then Invalid(NotAdjacent)
      else Valid(IntToString(a) + "," + IntToString(b))
  }

  /** The pocket a single's input names: "00", or what `parseInt` reads from it. */
  function TypedPocket(input: string): Pocket {
    if Trim(input) == "00" then DoubleZero else PocketOf(ParseInt(Trim(input)))
  }

  /** An accepted single covers exactly one pocket of the wheel: the one typed. */
  lemma SingleCoversOnePocket(input: string)
    requires CheckSingle(input).Valid?
    ensures BetNumbers(Single, Some(CheckSingle(input).selection)) == Some([TypedPocket(input)])
    ensures TypedPocket(input) in Wheel()
  {
    if Trim(input) == "0" {
      ParseZero();
    }
    WheelPockets(TypedPocket(input));
  }

  lemma ParseZero()
    ensures ParseInt("0") == Some(0)
  {
    ParseIntOfString(0);
    assert IntToString(0) == "0";
  }

  /** The accepted split selection `${a},${b}` covers exactly a and b. */
  lemma SplitSelectionCovers(a: int, b: int)
    ensures BetNumbers(SplitBet, Some(IntToString(a) + "," + IntToString(b))) == Some([Num(a), Num(b)])
  {
    SplitPair(a, b);
    NumberPocket(a);
    NumberPocket(b);
    SplitPocketsPair(IntToString(a), IntToString(b), a, b);
  }

  lemma SplitPocketsPair(p: string, q: string, a: int, b: int)
    requires PocketOf(ParseInt(Trim(p))) == Num(a) && PocketOf(ParseInt(Trim(q))) == Num(b)
    ensures SplitPockets([p, q]) == [Num(a), Num(b)]
  {
  }

  /** The two pockets a split's input names, read as `Number` does. */
  function TypedPair(input: string): seq<Pocket> {
    var parts := TrimAll(Split(input, ','));
    if |parts| == 2 then [PocketOf(NumberOf(parts[0])), PocketOf(NumberOf(parts[1]))] else []
  }

  /** An accepted split covers the two numbers typed, which share an edge of the layout. */
  lemma SplitCoversTwoNeighbours(input: string)
    requires CheckSplit(input).Valid?
    ensures BetNumbers(SplitBet, Some(CheckSplit(input).selection)) == Some(TypedPair(input))
    ensures var p := TypedPair(input);
      && |p| == 2 && p[0].Num? && p[1].Num?
      && 1 <= p[0].n <= 36 && 1 <= p[1].n <= 36 && Adjacent(p[0].n, p[1].n)
  {
    var parts := TrimAll(Split(input, ','));
    var a, b := NumberOf(parts[0]).value, NumberOf(parts[1]).value;
    SplitSelectionCovers(a, b);
  }

  lemma SplitPair(a: int, b: int)
    ensures Split(IntToString(a) + "," + IntToString(b), ',') == [IntToString(a), IntToString(b)]
  {
    var sa, sb := IntToString(a), IntToString(b);
    NotInNumber(a, ',');
    NotInNumber(b, ',');
    assert Join([sb], ',') == sb;
    assert sa + "," + sb == Join([sa, sb], ',');
    SplitJoin([sa, sb], ',');
  }

  lemma NumberPocket(a: int)
    ensures PocketOf(ParseInt(Trim(IntToString(a)))) == Num(a)
  {
    TrimNumber(a);
    ParseIntOfString(a);
  }

  /** A printed integer has no surrounding whitespace. */
  lemma TrimNumber(i: int)
    ensures Trim(IntToString(i)) == IntToString(i)
  {
    var s := IntToString(i);
    assert s[0] == '-' || IsDigit(s[0]);
    assert IsDigit(s[|s| - 1]);
  }
}
