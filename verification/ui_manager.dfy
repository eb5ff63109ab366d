/** The heads-up display's pure parts: the m:ss clock used for the
    countdown and the clear panel, the warning colours of the timer and the
    lives counter, and the collected/target score text. Only the variable
    part of each text is modelled, not its decorative label. */
module UIManager {
  import opened Common
  import GameManager

  /** Seconds below which the countdown turns red. */
  const TimerWarningSeconds: real := 30.0
  /** Lives at or below which the lives counter turns red. */
  const LivesWarning: int := 1

  // ---------------------------------------------------------------------
  // Numbers as text

  function DigitChar(d: nat): char
    requires d < 10
  {
    "0123456789"[d]
  }

  predicate IsDigit(c: char) {
    '0' <= c <= '9'
  }

  predicate AllDigits(s: string) {
    forall i :: 0 <= i < |s| ==> IsDigit(s[i])
  }

  /** Decimal digits of `n`, most significant first, without leading zeros. */
  function Digits(n: nat): (s: string)
    ensures |s| >= 1 && AllDigits(s)
    ensures n < 10 <==> |s| == 1
  {
    if n < 10 then [DigitChar(n)] else Digits(n / 10) + [DigitChar(n % 10)]
  }

  /** The integer a digit string denotes. */
  function ParseDigits(s: string): nat
    requires AllDigits(s)
  {
    if s == [] then 0
    else ParseDigits(s[..|s| - 1]) * 10 + (s[|s| - 1] as int - '0' as int)
  }

  lemma {:induction false} DigitsRoundTrip(n: nat)
    ensures ParseDigits(Digits(n)) == n
  {
    if n >= 10 {
      DigitsRoundTrip(n / 10);
      var s := Digits(n);
      assert s[..|s| - 1] == Digits(n / 10);
    }
  }

  lemma {:induction false} LeadingZero(s: string)
    requires AllDigits(s)
    ensures AllDigits("0" + s) && ParseDigits("0" + s) == ParseDigits(s)
    decreases |s|
  {
    if s != [] {
      var t := "0" + s;
      assert t[..|t| - 1] == "0" + s[..|s| - 1];
      LeadingZero(s[..|s| - 1]);
    }
  }

  /** An integer as C# prints it: a minus sign, then the digits. */
  function IntText(n: int): string {
    if n < 0 then "-" + Digits(-n) else Digits(n)
  }

  /** An integer with the "00" format: at least two digits. */
  function TwoDigitText(n: int): string {
    var a := if n < 0 then -n else n;
    var d := if a < 10 then "0" + Digits(a) else Digits(a);
    if n < 0 then "-" + d else d
  }

  // ---------------------------------------------------------------------
  // The clock

  /** Minutes and seconds shown for a time in seconds. */
  datatype Clock = Clock(minutes: int, seconds: int)

  /** Truncation toward zero. */
  function Trunc(x: real): int {
    if x >= 0.0 then x.Floor else -((-x).Floor)
  }

  /** The remainder of the float `%`: it takes the sign of the dividend. */
  function FloatRem(x: real, m: real): real
    requires m != 0.0
  {
    x - m * Trunc(x / m) as real
  }

  /** Whole minutes, and whole seconds of the remainder, each rounded down.
      For a non-negative time the seconds are 0..59, the minutes are not
      negative, and together they give the whole seconds elapsed. */
  function ClockOf(t: real): (c: Clock)
    ensures t >= 0.0 ==>
      && c.minutes >= 0
      && 0 <= c.seconds <= 59
      && 60 * c.minutes + c.seconds == t.Floor
  {
    var m := (t / 60.0).Floor;
    var c := Clock(m, FloatRem(t, 60.0).Floor);
    if t < 0.0 then c
    else
      assert m as real <= t / 60.0 < m as real + 1.0;
      assert 60.0 * (m as real) <= t < 60.0 * (m as real) + 60.0;
      var rem := t - 60.0 * m as real;
      assert FloatRem(t, 60.0) == rem;
      assert 0.0 <= rem < 60.0;
      var sec := rem.Floor;
      assert sec as real <= rem < sec as real + 1.0;
      assert (60 * m + sec) as real <= t < (60 * m + sec) as real + 1.0;
      c
  }

  /** The clock as shown: minutes, a colon, two-digit seconds. For a
      non-negative time the text reads back as the clock it shows. */
  function ClockText(t: real): (s: string)
    ensures t >= 0.0 ==> |s| >= 4 && ParseClock(s) == Some(ClockOf(t))
  {
    var c := ClockOf(t);
    var s := IntText(c.minutes) + ":" + TwoDigitText(c.seconds);
    if t < 0.0 then s
    else
      ClockFieldsRoundTrip(c.minutes, c.seconds);
      s
  }

  /** Reads back "m:ss": digits, a colon, exactly two digits. */
  function ParseClock(s: string): Option<Clock> {
    if |s| < 4 || s[|s| - 3] != ':' then None
    else
      var m := s[..|s| - 3];
      var sec := s[|s| - 2..];
      if AllDigits(m) && AllDigits(sec) then Some(Clock(ParseDigits(m), ParseDigits(sec))) else None
  }

  /** Any minute count and second of a minute read back from "m:ss". */
  lemma ClockFieldsRoundTrip(minutes: nat, seconds: nat)
    requires seconds <= 59
    ensures var s := IntText(minutes) + ":" + TwoDigitText(seconds);
      |s| >= 4 && ParseClock(s) == Some(Clock(minutes, seconds))
  {
    var mt := Digits(minutes);
    var st := TwoDigitText(seconds);
    assert |st| == 2 && AllDigits(st) && ParseDigits(st) == seconds by {
      DigitsRoundTrip(seconds);
      if seconds < 10 {
        LeadingZero(Digits(seconds));
      }
    }
    var s := mt + ":" + st;
    assert s[..|s| - 3] == mt;
    assert s[|s| - 2..] == st;
    DigitsRoundTrip(minutes);
  }

  // ---------------------------------------------------------------------
  // Colours

  /** The countdown's colour: red or yellow, and for a non-negative time red
      exactly when the clock shows 0 minutes and fewer than 30 seconds. */
  function TimerColor(t: real): (c: Color)
    ensures c == Red || c == Yellow
    ensures t >= 0.0 ==> (c == Red <==> ClockOf(t).minutes == 0 && ClockOf(t).seconds < 30)
  {
    if t < TimerWarningSeconds then
      assert t >= 0.0 ==> t.Floor as real <= t && t.Floor < 30;
      Red
    else
      assert t.Floor as real > t - 1.0 && t.Floor >= 30;
      Yellow
  }

  /** The lives counter's colour: red or white. For a counter that is not
      negative it is red exactly when the number the text shows is at most
      one; a negative counter is shown with a minus sign, in red. */
  function LivesColor(current: int): (c: Color)
    ensures c == Red || c == White
    ensures current >= 0 ==>
      AllDigits(IntText(current)) && (c == Red <==> ParseDigits(IntText(current)) <= 1)
    ensures current < 0 ==> c == Red && IntText(current)[0] == '-'
  {
    var c := if current <= LivesWarning then Red else White;
    if current < 0 then c
    else
      DigitsRoundTrip(current);
      c
  }

  /** Once the countdown shows red it stays red: a frame of a reachable
      match never raises the remaining time. */
  lemma TimerStaysRed(g: GameManager.Game, dt: real)
    requires GameManager.Inv(g) && dt >= 0.0
    requires TimerColor(g.remainingTime) == Red
    ensures TimerColor(GameManager.Tick(g, dt).game.remainingTime) == Red
  {
    GameManager.TickPreservesInv(g, dt);
  }

  // ---------------------------------------------------------------------
  // Score

  /** The score as shown, "collected/total"; for counts that are not
      negative it reads back as the pair it shows. */
  function ScoreText(collected: int, total: int): (s: string)
    ensures collected >= 0 && total >= 0 ==> ParseScore(s) == Some((collected, total))
  {
    var s := IntText(collected) + "/" + IntText(total);
    if collected < 0 || total < 0 then s
    else
      ScoreFieldsRoundTrip(collected, total);
      s
  }

  /** Position of the first `c` in `s`, if any. */
  function IndexOf(s: string, c: char): (r: Option<nat>)
    ensures r.Some? ==> r.value < |s| && s[r.value] == c && c !in s[..r.value]
    ensures r.None? ==> c !in s
  {
    if s == [] then None
    else if s[0] == c then Some(0)
    else
      var rest := IndexOf(s[1..], c);
      if rest.Some? then
        assert s[..rest.value + 1] == [s[0]] + s[1..][..rest.value];
        Some(rest.value + 1)
      else None
  }

  /** Reads back "collected/total". */
  function ParseScore(s: string): Option<(nat, nat)> {
    var i := IndexOf(s, '/');
    if i.None? then None
    else
      var a := s[..i.value];
      var b := s[i.value + 1..];
      if AllDigits(a) && AllDigits(b) then Some((ParseDigits(a), ParseDigits(b))) else None
  }

  /** The separator is found right after a prefix that does not hold it. */
  lemma {:induction false} IndexOfAfterPrefix(a: string, c: char, rest: string)
    requires c !in a
    ensures IndexOf(a + [c] + rest, c) == Some(|a|)
    decreases |a|
  {
    var s := a + [c] + rest;
    if a != [] {
      assert s[1..] == a[1..] + [c] + rest;
      IndexOfAfterPrefix(a[1..], c, rest);
    }
  }

  /** Any two counts read back from "collected/total". */
  lemma ScoreFieldsRoundTrip(collected: nat, total: nat)
    ensures ParseScore(IntText(collected) + "/" + IntText(total)) == Some((collected, total))
  {
    var a := Digits(collected);
    var b := Digits(total);
    var s := IntText(collected) + "/" + IntText(total);
    assert s == a + "/" + b;
    assert '/' !in a by {
      assert forall i :: 0 <= i < |a| ==> IsDigit(a[i]);
    }
    IndexOfAfterPrefix(a, '/', b);
    assert s[..|a|] == a;
    assert s[|a| + 1..] == b;
    DigitsRoundTrip(collected);
    DigitsRoundTrip(total);
  }
}
