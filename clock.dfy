/** Elapsed-time arithmetic of the game: the tick rule, the start time a
    save records, and the MM:SS formatter (script.js, startTimer,
    saveGame, formatTime). Times are milliseconds as Date.now() gives them. */
module Clock {
  import opened Wrappers

  /** JavaScript truthiness of `this.startTime`: null and 0 are false. */
  predicate Truthy(startTime: Option<int>)
  {
    startTime.Some? && startTime.value != 0
  }

  /** `Date.now() - this.startTime`, where a null start time counts as 0. */
  function ElapsedAt(startTime: Option<int>, now: int): int
  {
    now - (if startTime.Some? then startTime.value else 0)
  }

  /** The start time a save records: the instant the clock would have had
      to start at for `elapsed` to have passed by `now`, or null. Resuming
      from it continues the count from `elapsed`. */
  function SavedStartTime(startTime: Option<int>, elapsed: int, now: int): (r: Option<int>)
    ensures Truthy(startTime) ==> forall later :: ElapsedAt(r, later) == elapsed + (later - now)
    ensures !Truthy(startTime) ==> r == None
  {
    if Truthy(startTime) then Some(now - elapsed) else None
  }

  // ---------------------------------------------------------------------
  // Decimal text

  predicate IsDigit(c: char) { '0' <= c <= '9' }

  predicate AllDigits(s: string) { forall k :: 0 <= k < |s| ==> IsDigit(s[k]) }

  function Digit(d: nat): (c: char)
    requires d < 10
  {
    "0123456789"[d]
  }

  /** The value of a string of decimal digits. */
  function DigitsValue(s: string): nat
    requires AllDigits(s)
  {
    if s == [] then 0
    else DigitsValue(s[..|s| - 1]) * 10 + (s[|s| - 1] as int - '0' as int)
  }

  /** `n.toString()` for a non-negative integer. */
  function NatToString(n: nat): string
  {
    if n < 10 then [Digit(n)] else NatToString(n / 10) + [Digit(n % 10)]
  }

  /** `n.toString()` for any integer. */
  function IntToString(n: int): string
  {
    if n < 0 then "-" + NatToString(-n) else NatToString(n)
  }

  /** `s.padStart(2, '0')` */
  function PadStart2(s: string): string
  {
    if |s| >= 2 then s else seq(2 - |s|, _ => '0') + s
  }

  /** JavaScript's `a % b` for b > 0: the remainder takes the sign of a. */
  function JsRemainder(a: int, b: int): int
    requires b > 0
  {
    if a >= 0 then a % b else -((-a) % b)
  }

  /** formatTime: whole seconds (floored), then minutes and the seconds
      left over, each padded to two digits. Dafny's `/` by a positive
      divisor is floor division, as Math.floor of the quotient is. */
  function FormatTime(milliseconds: int): string
  {
    var seconds := milliseconds / 1000;
    var minutes := seconds / 60;
    var remainingSeconds := JsRemainder(seconds, 60);
    PadStart2(IntToString(minutes)) + ":" + PadStart2(IntToString(remainingSeconds))
  }

  lemma {:induction false} NatToStringDigits(n: nat)
    ensures AllDigits(NatToString(n))
    ensures DigitsValue(NatToString(n)) == n
    ensures 1 <= |NatToString(n)|
    ensures n < 100 ==> |NatToString(n)| <= 2
    decreases n
  {
    if n >= 10 {
      NatToStringDigits(n / 10);
      var s := NatToString(n);
      assert s[..|s| - 1] == NatToString(n / 10);
    }
  }

  lemma {:induction false} LeadingZeros(z: string, s: string)
    requires AllDigits(s) && forall k :: 0 <= k < |z| ==> z[k] == '0'
    ensures AllDigits(z + s) && DigitsValue(z + s) == DigitsValue(s)
    decreases |s|
  {
    if s == [] {
      assert z + s == z;
      ZerosValue(z);
    } else {
      var last := |s| - 1;
      assert (z + s)[..|z + s| - 1] == z + s[..last];
      LeadingZeros(z, s[..last]);
    }
  }

  lemma {:induction false} ZerosValue(z: string)
    requires forall k :: 0 <= k < |z| ==> z[k] == '0'
    ensures AllDigits(z) && DigitsValue(z) == 0
    decreases |z|
  {
    if z != [] {
      ZerosValue(z[..|z| - 1]);
    }
  }

  /** Padding keeps a number's value and gives it two digits at least. */
  lemma PaddedNumber(n: nat)
    ensures AllDigits(PadStart2(NatToString(n)))
    ensures DigitsValue(PadStart2(NatToString(n))) == n
    ensures 2 <= |PadStart2(NatToString(n))|
    ensures n < 100 ==> |PadStart2(NatToString(n))| == 2
  {
    var s := NatToString(n);
    NatToStringDigits(n);
    if |s| < 2 {
      LeadingZeros(seq(2 - |s|, _ => '0'), s);
    }
  }

  /** The text of two padded numbers joined by a colon splits back. */
  lemma SplitAtColon(m: string, sec: string)
    requires |m| >= 2 && |sec| == 2
    ensures var r := m + ":" + sec;
      |r| >= 5 && r[|r| - 3] == ':' && r[..|r| - 3] == m && r[|r| - 2..] == sec
  {
  }

  lemma MinutesBelow100(milliseconds: int)
    requires 0 <= milliseconds < 6000000
    ensures milliseconds / 1000 / 60 < 100
  {
    assert milliseconds / 1000 < 6000;
  }

  /** For a non-negative duration, FormatTime reads back: the text before
      the last three characters is the number of whole minutes, then a
      colon, then two digits giving the seconds left over (below 60). */
  lemma FormatTimeReadsBack(milliseconds: int)
    requires milliseconds >= 0
    ensures var r := FormatTime(milliseconds);
      && |r| >= 5
      && r[|r| - 3] == ':'
      && AllDigits(r[..|r| - 3]) && AllDigits(r[|r| - 2..])
      && DigitsValue(r[..|r| - 3]) == milliseconds / 1000 / 60
      && DigitsValue(r[|r| - 2..]) == milliseconds / 1000 % 60
      && DigitsValue(r[|r| - 2..]) < 60
      && (milliseconds < 6000000 ==> |r| == 5)
  {
    var seconds := milliseconds / 1000;
    var minutes := seconds / 60;
    var rest := seconds % 60;
    assert IntToString(minutes) == NatToString(minutes);
    assert JsRemainder(seconds, 60) == rest;
    assert IntToString(rest) == NatToString(rest);
    PaddedNumber(minutes);
    PaddedNumber(rest);
    var m := PadStart2(NatToString(minutes));
    var sec := PadStart2(NatToString(rest));
    assert FormatTime(milliseconds) == m + ":" + sec;
    SplitAtColon(m, sec);
    if milliseconds < 6000000 {
      MinutesBelow100(milliseconds);
    }
  }
}
