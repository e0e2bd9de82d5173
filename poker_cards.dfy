/**
  Cards of the poker table (src/commands/poker.js): a card is the string
  rank + suit glyph, the deck is the 13 x 4 construction shuffled in place,
  and a hand is scored by its highest card only.
*/
module PokerCards {
  import opened Wrappers
  import opened JsNum
  import opened Shuffle

  type Card = string

  /** The suit glyphs, one UTF-16 code unit each. */
  const Suits: seq<char> := ['\U{2660}', '\U{2665}', '\U{2666}', '\U{2663}']

  const Ranks: seq<string> := ["2", "3", "4", "5", "6", "7", "8", "9", "10", "J", "Q", "K", "A"]

  /** The deck before shuffling: suit by suit, each suit in rank order. */
  function OrderedDeck(): (d: seq<Card>)
    ensures |d| == 52
    ensures forall i :: 0 <= i < 52 ==> d[i] == Ranks[i % 13] + [Suits[i / 13]]
  {
    seq(52, i requires 0 <= i < 52 => Ranks[i % 13] + [Suits[i / 13]])
  }

  /** `cardValue`: strip the suit (`slice(0, -1)`), then A/K/Q/J or `parseInt`; `None` is NaN. */
  function CardValue(card: Card): Option<int> {
    var rank := if card == [] then [] else card[..|card| - 1];
    if rank == "A" then Some(14)
    else if rank == "K" then Some(13)
    else if rank == "Q" then Some(12)
    else if rank == "J" then Some(11)
    else ParseInt(rank)
  }

  /**
    The largest of some card values: `None` when the list is empty or some
    value is missing.
  */
  function MaxValue(vs: seq<Option<int>>): (r: Option<int>)
    ensures r.None? <==> vs == [] || exists i :: 0 <= i < |vs| && vs[i].None?
    ensures r.Some? ==> exists i :: 0 <= i < |vs| && vs[i] == r
    ensures r.Some? ==> forall i :: 0 <= i < |vs| ==> vs[i].Some? && vs[i].value <= r.value
  {
    if vs == [] then None
    else if |vs| == 1 then vs[0]
    else
      var rest := MaxValue(vs[1..]);
      assert forall i :: 1 <= i < |vs| ==> vs[i] == vs[1..][i - 1];
      if vs[0].None? then None
      else if rest.None? then
        var j :| 0 <= j < |vs| - 1 && vs[1..][j].None?;
        assert vs[j + 1].None?;
        None
      else
        var m := Max(vs[0].value, rest.value);
        assert vs[0] == Some(m) || exists i :: 1 <= i < |vs| && vs[i] == Some(m);
        Some(m)
  }

  /** The value of each card, in order. */
  function CardValues(cards: seq<Card>): (vs: seq<Option<int>>)
    ensures |vs| == |cards| && forall i :: 0 <= i < |cards| ==> vs[i] == CardValue(cards[i])
  {
    seq(|cards|, i requires 0 <= i < |cards| => CardValue(cards[i]))
  }

  /**
    `evaluateHand`: `Math.max` of the card values. `None` stands for a result
    that is not a number greater than -1 (NaN when some card has no value,
    -Infinity for no cards); the showdown never picks such a score.
  */
  function EvaluateHand(cards: seq<Card>): (r: Option<int>)
    ensures r.None? <==> cards == [] || exists i :: 0 <= i < |cards| && CardValue(cards[i]).None?
    ensures r.Some? ==> exists i :: 0 <= i < |cards| && CardValue(cards[i]) == r
    ensures r.Some? ==> forall i :: 0 <= i < |cards| ==> CardValue(cards[i]).Some? && CardValue(cards[i]).value <= r.value
  {
    var vs := CardValues(cards);
    var r := MaxValue(vs);
    assert r.Some? ==> exists i :: 0 <= i < |vs| && vs[i] == r;
    r
  }

  /** The r-th rank (from "2") is worth r + 2 whatever the suit: 2..10, J 11, Q 12, K 13, A 14. */
  lemma RankValue(r: nat, suit: char)
    requires r < 13
    ensures CardValue(Ranks[r] + [suit]) == Some(r + 2)
  {
    var card := Ranks[r] + [suit];
    assert card[..|card| - 1] == Ranks[r];
    if r < 9 {
      if r < 8 {
        assert Ranks[r] == [DigitChar(r + 2)] == NatToString(r + 2);
      } else {
        assert NatToString(10) == "10";
        assert Ranks[r] == NatToString(r + 2);
      }
      ParseIntOfString(r + 2);
    }
  }

  /** Every card of the deck has a value in 2..14, and the value is the rank's position + 2. */
  lemma {:induction false} DeckCardValues(i: int)
    requires 0 <= i < 52
    ensures CardValue(OrderedDeck()[i]) == Some(i % 13 + 2)
    ensures 2 <= CardValue(OrderedDeck()[i]).value <= 14
  {
    RankValue(i % 13, Suits[i / 13]);
  }

  /** Two cards of the same suit block have different ranks. */
  lemma SameSuitOtherRank(i: int, j: int)
    requires 0 <= i < j < 52 && i / 13 == j / 13
    ensures i % 13 != j % 13
  {
  }

  /** The four suit glyphs are different. */
  lemma SuitsDiffer(a: int, b: int)
    requires 0 <= a < 4 && 0 <= b < 4 && a != b
    ensures Suits[a] != Suits[b]
  {
  }

  /** The 52 cards of the construction are pairwise different. */
  lemma OrderedDeckDistinct()
    ensures Distinct(OrderedDeck())
  {
    var d := OrderedDeck();
    forall i, j | 0 <= i < j < 52 ensures d[i] != d[j] {
      var ci, cj := d[i], d[j];
      if i / 13 == j / 13 {
        SameSuitOtherRank(i, j);
        DeckCardValues(i);
        DeckCardValues(j);
        assert CardValue(ci) != CardValue(cj);
      } else {
        SuitsDiffer(i / 13, j / 13);
        assert ci[|ci| - 1] == Suits[i / 13];
        assert cj[|cj| - 1] == Suits[j / 13];
      }
    }
  }

  /**
    `createDeck`: the nested loops push rank + suit for every suit and rank,
    then the deck is shuffled with the supplied picks. The result is a
    permutation of the construction: 52 different cards, each worth 2..14.
  */
  method CreateDeck(picks: seq<nat>) returns (deck: seq<Card>)
    requires ValidPicks(picks, 52)
    ensures |deck| == 52 && multiset(deck) == multiset(OrderedDeck())
    ensures Distinct(deck)
    ensures forall c :: c in deck ==> CardValue(c).Some? && 2 <= CardValue(c).value <= 14
  {
    var ordered: seq<Card> := [];
    var s := 0;
    while s < 4
      invariant 0 <= s <= 4
      invariant ordered == OrderedDeck()[..13 * s]
    {
      var r := 0;
      while r < 13
        invariant 0 <= r <= 13
        invariant ordered == OrderedDeck()[..13 * s + r]
      {
        ordered := ordered + [Ranks[r] + [Suits[s]]];
        r := r + 1;
      }
      s := s + 1;
    }
    assert ordered == OrderedDeck();
    OrderedDeckDistinct();
    deck := Shuffled(ordered, picks);
    forall c | c in deck ensures CardValue(c).Some? && 2 <= CardValue(c).value <= 14 {
      assert c in multiset(ordered);
      var i :| 0 <= i < 52 && ordered[i] == c;
      DeckCardValues(i);
    }
  }
}
