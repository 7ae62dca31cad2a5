/** The position label of the player: a millisecond position and a
    millisecond duration rendered as "MM:SS / MM:SS", each field a
    zero-padded decimal of at least two digits. */
module TimeLabel {

  datatype Option<+T> = None | Some(value: T)

  // ---------------------------------------------------------------------
  // Decimal digits
  // ---------------------------------------------------------------------

  predicate IsDigit(c: char) {
    '0' <= c <= '9'
  }

  predicate AllDigits(s: string) {
    forall i :: 0 <= i < |s| ==> IsDigit(s[i])
  }

  function DigitChar(d: nat): (c: char)
    requires d < 10
    ensures IsDigit(c) && DigitValue(c) == d
  {
    ('0' as int + d) as char
  }

  function DigitValue(c: char): (d: nat)
    requires IsDigit(c)
    ensures d < 10
  {
    c as int - '0' as int
  }

  /** The number a string of decimal digits denotes (most significant first). */
  function Value(s: string): nat
    requires AllDigits(s)
  {
    if s == [] then 0 else Value(s[..|s| - 1]) * 10 + DigitValue(s[|s| - 1])
  }

  /** The shortest decimal rendering of n, as Python's str() gives it. */
  function Decimal(n: nat): (s: string)
    ensures 1 <= |s|
    ensures AllDigits(s)
    ensures |s| > 1 ==> s[0] != '0'
    decreases n
  {
    if n < 10 then [DigitChar(n)] else Decimal(n / 10) + [DigitChar(n % 10)]
  }

  /** Rendering n with the format "{:02d}": at least two digits, padded on
      the left with '0'. */
  function Pad2(n: nat): (s: string)
    ensures |s| >= 2 && AllDigits(s)
  {
    DecimalLength(n);
    if n < 10 then ['0', DigitChar(n)] else Decimal(n)
  }

  // ---------------------------------------------------------------------
  // The label
  // ---------------------------------------------------------------------

  /** Minutes and seconds fields of a millisecond reading: the source first
      truncates to whole seconds (ms // 1000), then splits by 60. */
  function Minutes(ms: nat): nat { ms / 1000 / 60 }

  function Seconds(ms: nat): nat { ms / 1000 % 60 }

  /** One "MM:SS" half of the label. */
  function Clock(ms: nat): string {
    Pad2(Minutes(ms)) + ":" + Pad2(Seconds(ms))
  }

  /** The whole label, position first, then duration. */
  function Label(positionMs: nat, durationMs: nat): (s: string)
    ensures |s| >= 13
    ensures |s| == 13 <==> positionMs < 6000000 && durationMs < 6000000
  {
    ClockShape(positionMs);
    ClockShape(durationMs);
    Clock(positionMs) + " / " + Clock(durationMs)
  }

  // ---------------------------------------------------------------------
  // A reader of labels, used to show that a label determines the whole
  // seconds it was made from
  // ---------------------------------------------------------------------

  /** Whole seconds shown by an "MM:SS" clock: at least two minute digits,
      a colon, and exactly two second digits below 60. */
  function ParseClock(s: string): Option<nat> {
    if |s| >= 5 && s[|s| - 3] == ':' && AllDigits(s[..|s| - 3]) && AllDigits(s[|s| - 2..])
       && Value(s[|s| - 2..]) < 60
    then Some(Value(s[..|s| - 3]) * 60 + Value(s[|s| - 2..]))
    else None
  }

  /** Index of the first occurrence of c in s, or |s| when there is none. */
  function IndexOf(s: string, c: char): (k: nat)
    ensures k <= |s|
    ensures k < |s| ==> s[k] == c
    ensures forall i :: 0 <= i < k ==> s[i] != c
  {
    if s == [] then 0 else if s[0] == c then 0 else 1 + IndexOf(s[1..], c)
  }

  /** Whole seconds of position and duration shown by a label. */
  function ParseLabel(s: string): Option<(nat, nat)> {
    var k := IndexOf(s, ' ');
    if k + 3 <= |s| && s[k..k + 3] == " / " then
      match (ParseClock(s[..k]), ParseClock(s[k + 3..]))
      case (Some(p), Some(d)) => Some((p, d))
      case _ => None
    else None
  }

  // ---------------------------------------------------------------------
  // Properties
  // ---------------------------------------------------------------------

  /** The seconds field is the whole seconds modulo 60, the minutes field
      the rest, and together they give back the whole seconds; any other
      split with a seconds part below 60 is this one. */
  lemma FieldsReconstruct(ms: nat, m: nat, s: nat)
    ensures Seconds(ms) < 60
    ensures Minutes(ms) * 60 + Seconds(ms) == ms / 1000
    ensures s < 60 && m * 60 + s == ms / 1000 ==> m == Minutes(ms) && s == Seconds(ms)
  {
  }

  lemma {:induction false} ValueOfDecimal(n: nat)
    ensures Value(Decimal(n)) == n
    decreases n
  {
    var s := Decimal(n);
    if n >= 10 {
      ValueOfDecimal(n / 10);
      assert s[..|s| - 1] == Decimal(n / 10);
    }
  }

  /** Decimal(n) has one digit exactly for n < 10, two exactly for
      10 <= n < 100, and more from 100 on. */
  lemma {:induction false} DecimalLength(n: nat)
    ensures |Decimal(n)| == 1 <==> n < 10
    ensures |Decimal(n)| == 2 <==> 10 <= n < 100
    decreases n
  {
    if n >= 10 {
      DecimalLength(n / 10);
    }
  }

  lemma ValueLeadingZero(s: string)
    requires AllDigits(s)
    ensures AllDigits("0" + s) && Value("0" + s) == Value(s)
    decreases |s|
  {
    if s != [] {
      var t := "0" + s;
      assert t[..|t| - 1] == "0" + s[..|s| - 1];
      ValueLeadingZero(s[..|s| - 1]);
    }
  }

  /** "{:02d}" rendering: only digits, denoting n, exactly two of them
      below 100 with a leading '0' below 10, and otherwise the plain
      decimal with more digits. */
  lemma Pad2Shape(n: nat)
    ensures AllDigits(Pad2(n)) && Value(Pad2(n)) == n
    ensures |Pad2(n)| >= 2
    ensures |Pad2(n)| == 2 <==> n < 100
    ensures n < 10 ==> Pad2(n)[0] == '0'
    ensures n >= 10 ==> Pad2(n) == Decimal(n)
  {
    DecimalLength(n);
    ValueOfDecimal(n);
    if n < 10 {
      assert Pad2(n) == "0" + Decimal(n);
      ValueLeadingZero(Decimal(n));
    }
  }

  /** The seconds half of a clock is always exactly two digits; the minutes
      half is two digits while the reading is below 100 minutes. */
  lemma ClockShape(ms: nat)
    ensures |Clock(ms)| >= 5
    ensures Clock(ms)[|Clock(ms)| - 3] == ':'
    ensures Clock(ms)[..|Clock(ms)| - 3] == Pad2(Minutes(ms))
    ensures Clock(ms)[|Clock(ms)| - 2..] == Pad2(Seconds(ms))
    ensures ms < 6000000 <==> |Clock(ms)| == 5
    ensures forall i :: 0 <= i < |Clock(ms)| ==> Clock(ms)[i] != ' '
  {
    Pad2Shape(Minutes(ms));
    Pad2Shape(Seconds(ms));
    var c := Clock(ms);
    var mm := Pad2(Minutes(ms));
    assert c == mm + ":" + Pad2(Seconds(ms));
    assert c[..|c| - 3] == mm;
    forall i | 0 <= i < |c| ensures c[i] != ' ' {
      if i < |mm| {
        assert c[i] == mm[i];
      }
    }
  }

  /** Reading a clock gives back the whole seconds it was rendered from. */
  lemma ClockRoundTrip(ms: nat)
    ensures ParseClock(Clock(ms)) == Some(ms / 1000)
  {
    ClockShape(ms);
    Pad2Shape(Minutes(ms));
    Pad2Shape(Seconds(ms));
    FieldsReconstruct(ms, 0, 0);
  }

  /** Reading a label gives back the whole seconds of position and duration. */
  lemma LabelRoundTrip(positionMs: nat, durationMs: nat)
    ensures ParseLabel(Label(positionMs, durationMs)) == Some((positionMs / 1000, durationMs / 1000))
  {
    var p := Clock(positionMs);
    var s := Label(positionMs, durationMs);
    ClockShape(positionMs);
    IndexOfSplit(p, " / " + Clock(durationMs), ' ');
    assert s == p + (" / " + Clock(durationMs));
    assert s[..|p|] == p;
    assert s[|p|..|p| + 3] == " / ";
    assert s[|p| + 3..] == Clock(durationMs);
    ClockRoundTrip(positionMs);
    ClockRoundTrip(durationMs);
  }

  lemma IndexOfSplit(a: string, b: string, c: char)
    requires forall i :: 0 <= i < |a| ==> a[i] != c
    requires b != [] && b[0] == c
    ensures IndexOf(a + b, c) == |a|
  {
    assert forall i :: 0 <= i < |a| ==> (a + b)[i] == a[i];
    assert (a + b)[|a|] == c;
  }

  /** Two labels are equal exactly when position and duration agree in
      whole seconds: sub-second differences never show. */
  lemma LabelDeterminesSeconds(p1: nat, d1: nat, p2: nat, d2: nat)
    ensures Label(p1, d1) == Label(p2, d2) <==> p1 / 1000 == p2 / 1000 && d1 / 1000 == d2 / 1000
  {
    LabelRoundTrip(p1, d1);
    LabelRoundTrip(p2, d2);
  }

  lemma ZeroPadded()
    ensures Pad2(0) == "00" && Pad2(1) == "01" && Pad2(2) == "02" && Pad2(5) == "05"
    ensures Pad2(30) == "30" && Pad2(100) == "100"
  {
    assert Decimal(3) == "3" && Decimal(30) == "30";
    assert Decimal(1) == "1" && Decimal(10) == "10" && Decimal(100) == "100";
  }

  /** The label the player shows before any position is reported, and two
      readings of the label. */
  lemma LabelExamples()
    ensures Label(0, 0) == "00:00 / 00:00"
    ensures Clock(65000) == "01:05"
    ensures Label(30000, 125000) == "00:30 / 02:05"
    ensures Clock(6000000) == "100:00"
  {
    ZeroPadded();
    assert Minutes(65000) == 1 && Seconds(65000) == 5;
    assert Minutes(30000) == 0 && Seconds(30000) == 30;
    assert Minutes(125000) == 2 && Seconds(125000) == 5;
    assert Minutes(6000000) == 100 && Seconds(6000000) == 0;
  }

  /** For any duration, a position of 65 seconds renders as a label that
      begins "01:05". */
  lemma LabelStartsWithPosition(positionMs: nat, durationMs: nat)
    requires 65000 <= positionMs < 66000
    ensures Label(positionMs, durationMs)[..5] == "01:05"
  {
    var p := Clock(positionMs);
    assert p == Clock(65000);
    LabelExamples();
    assert Label(positionMs, durationMs)[..5] == p;
  }
}
