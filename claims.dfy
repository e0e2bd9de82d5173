/**
  The reply logic of `/daily` (src/commands/daily.js) and `/freebie`
  (src/commands/freebie.js). Both files carry the same `fmtHMS` helper,
  defined once here. The claim itself (`claimDailyCalendar`,
  `claimFreebie`) is not part of this model: its result is an input.
*/
module Claims {
  import opened JsNum

  /** `Math.ceil(ms / 1000)` for a whole, non-negative number of milliseconds. */
  function CeilSeconds(ms: nat): (s: nat)
    ensures s * 1000 >= ms
    ensures s == 0 || (s - 1) * 1000 < ms
  {
    (ms + 999) / 1000
  }

  /** `fmtHMS`: hours, minutes and seconds of the rounded-up seconds, each padded to two digits, joined by ':'. */
  function FmtHMS(ms: nat): string {
    var s := CeilSeconds(ms);
    Fields(s / 3600, s % 3600 / 60, s % 60)
  }

  /** The three padded fields joined by ':'. */
  function Fields(h: nat, m: nat, ss: nat): string {
    Join([Pad2(h), Pad2(m), Pad2(ss)], ':')
  }

  /** A number below 100 pads to exactly two digits. */
  lemma Pad2Short(n: nat)
    requires n < 100
    ensures |Pad2(n)| == 2
  {
    if n >= 10 {
      assert NatToString(n) == NatToString(n / 10) + [DigitChar(n % 10)];
    }
  }

  /** Digits are never the ':' separator. */
  lemma NoColon(s: string)
    requires IsDigits(s)
    ensures ':' !in s
  {
    assert forall i :: 0 <= i < |s| ==> s[i] != ':';
  }

  /** Three fields without ':' joined by ':' split back into the three. */
  lemma SplitThree(a: string, b: string, c: string)
    requires ':' !in a && ':' !in b && ':' !in c
    ensures Split(Join([a, b, c], ':'), ':') == [a, b, c]
  {
    var parts := [a, b, c];
    assert forall k :: 0 <= k < 3 ==> parts[k] == a || parts[k] == b || parts[k] == c;
    SplitJoin(parts, ':');
  }

  /** Three padded fields joined by ':' split back into fields that read as the three numbers. */
  lemma {:induction false} FieldsReadBack(h: nat, m: nat, ss: nat)
    requires m < 60 && ss < 60
    ensures var p := Split(Fields(h, m, ss), ':');
      && |p| == 3
      && IsDigits(p[0]) && IsDigits(p[1]) && IsDigits(p[2])
      && |p[0]| >= 2 && |p[1]| == 2 && |p[2]| == 2
      && DigitsValue(p[0]) == h && DigitsValue(p[1]) == m && DigitsValue(p[2]) == ss
  {
    var a, b, c := Pad2(h), Pad2(m), Pad2(ss);
    NoColon(a);
    NoColon(b);
    NoColon(c);
    SplitThree(a, b, c);
    assert Fields(h, m, ss) == Join([a, b, c], ':');
    Pad2Short(m);
    Pad2Short(ss);
  }

  /** Whole seconds as hours, minutes below 60 and seconds below 60. */
  lemma HmsAddsUp(s: nat)
    ensures s / 3600 * 3600 + s % 3600 / 60 * 60 + s % 60 == s
    ensures s % 3600 / 60 < 60 && s % 60 < 60
  {
    var r := s % 3600;
    assert s == s / 3600 * 3600 + r;
    assert r == r / 60 * 60 + r % 60;
    assert r % 60 == s % 60 by {
      assert s == (s / 3600 * 60) * 60 + r;
    }
  }

  /**
    Reading `fmtHMS` back: three ':'-separated fields of at least two
    digits; minutes and seconds are exactly two digits below 60, and
    hours x 3600 + minutes x 60 + seconds is the rounded-up wait.
  */
  lemma FmtHMSReadsBack(ms: nat)
    ensures var p := Split(FmtHMS(ms), ':');
      && |p| == 3
      && IsDigits(p[0]) && IsDigits(p[1]) && IsDigits(p[2])
      && |p[0]| >= 2 && |p[1]| == 2 && |p[2]| == 2
      && DigitsValue(p[1]) < 60 && DigitsValue(p[2]) < 60
      && DigitsValue(p[0]) * 3600 + DigitsValue(p[1]) * 60 + DigitsValue(p[2]) == CeilSeconds(ms)
  {
    var s := CeilSeconds(ms);
    HmsAddsUp(s);
    FieldsReadBack(s / 3600, s % 3600 / 60, s % 60);
  }

  /** What `claimDailyCalendar` and `claimFreebie` return, as far as the commands read it. */
  datatype Claim = Claim(ok: bool, reason: string, waitMs: nat, streak: int, amount: int, newBalance: int)

  datatype DailyReply =
    | AlreadyClaimed(wait: string, streak: int)
    | FirstDay(amount: int, newBalance: int)
    | OnStreak(streak: int, amount: int, newBalance: int)

  /** The reply `/daily` chooses. */
  function DailyReplyOf(res: Claim): (r: DailyReply)
    ensures r.AlreadyClaimed? <==> !res.ok && res.reason == "already"
    ensures r.AlreadyClaimed? ==> r.wait == FmtHMS(res.waitMs) && r.streak == res.streak
    ensures r.FirstDay? <==> !(!res.ok && res.reason == "already") && res.streak == 1
    ensures !r.AlreadyClaimed? ==> r.amount == res.amount && r.newBalance == res.newBalance
  {
    if !res.ok && res.reason == "already" then AlreadyClaimed(FmtHMS(res.waitMs), res.streak)
    else if res.streak == 1 then FirstDay(res.amount, res.newBalance)
    else OnStreak(res.streak, res.amount, res.newBalance)
  }

  /**
    Only the reason "already" is reported as a refusal: a claim that
    failed for any other reason is announced as granted.
  */
  lemma OtherFailuresReadAsGranted(res: Claim)
    requires !res.ok && res.reason != "already"
    ensures DailyReplyOf(res).FirstDay? || DailyReplyOf(res).OnStreak?
  {
  }

  datatype FreebieReply = OnCooldown(wait: string) | Claimed(amount: int, newBalance: int)

  /** The reply `/freebie` chooses. */
  function FreebieReplyOf(res: Claim): (r: FreebieReply)
    ensures r.OnCooldown? <==> !res.ok
    ensures r.OnCooldown? ==> r.wait == FmtHMS(res.waitMs)
    ensures r.Claimed? ==> r.amount == res.amount && r.newBalance == res.newBalance
  {
    if !res.ok then OnCooldown(FmtHMS(res.waitMs)) else Claimed(res.amount, res.newBalance)
  }
}
