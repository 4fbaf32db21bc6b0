/**
 The bandwidth formatter of `src/display/ui.rs`: a byte count becomes a
 string with a `GBps`, `MBps`, `KBps` or `Bps` suffix.

 Every caller passes a `u64` counter converted to `f64`, so the input is a
 natural number and the float comparisons `> 999999999.0`, `> 999999.0` and
 `> 999.0` are the integer thresholds `>= 10^9`, `>= 10^6` and `>= 10^3`.
 The scaled branches print `bytes / 10^k` with `{:.2}`; the model renders the
 exact quotient in hundredths, rounded half up (see `Hundredths`).
 */
module Bandwidth {
  import opened Wrappers
  import opened Decimal

  datatype Unit = GBps | MBps | KBps | Bps

  /** The unit the formatter picks: the thresholds are strict `>` on the
      largest count of the unit below, so each power of ten falls upward. */
  function UnitFor(bytes: nat): (u: Unit)
    ensures u == GBps <==> 1_000_000_000 <= bytes
    ensures u == MBps <==> 1_000_000 <= bytes < 1_000_000_000
    ensures u == KBps <==> 1_000 <= bytes < 1_000_000
    ensures u == Bps <==> bytes < 1_000
  {
    if bytes > 999_999_999 then GBps
    else if bytes > 999_999 then MBps
    else if bytes > 999 then KBps
    else Bps
  }

  function UnitText(u: Unit): string {
    match u
    case GBps => "GBps"
    case MBps => "MBps"
    case KBps => "KBps"
    case Bps => "Bps"
  }

  /** The divisor the formatter applies before printing in unit `u`. */
  function Scale(u: Unit): (scale: nat)
    ensures scale > 0
  {
    match u
    case GBps => 1_000_000_000
    case MBps => 1_000_000
    case KBps => 1_000
    case Bps => 1
  }

  /** `bytes / scale` in hundredths, rounded to the nearest hundredth with
      ties going up: the unique `h` with `h - 1/2 <= 100 * bytes / scale < h + 1/2`. */
  function Hundredths(bytes: nat, scale: nat): (h: nat)
    requires scale > 0
    ensures 2 * scale * h <= 200 * bytes + scale < 2 * scale * (h + 1)
  {
    var q := (200 * bytes + scale) / (2 * scale);
    assert 2 * scale * q + (200 * bytes + scale) % (2 * scale) == 200 * bytes + scale;
    q
  }

  /** Hundredths written with two fixed decimals, as `{:.2}` prints: the whole
      part in decimal, a point, then exactly two digits. */
  function Fixed2(h: nat): (s: string)
    ensures |s| >= 4 && s[|s| - 3] == '.'
    ensures Canonical(s[..|s| - 3]) && IsDigit(s[|s| - 2]) && IsDigit(s[|s| - 1])
  {
    NatToString(h / 100) + "." + [DigitChar(h % 100 / 10), DigitChar(h % 10)]
  }

  /** `display_bandwidth` applied to a counter value. */
  function DisplayBandwidth(bytes: nat): (s: string)
    ensures '/' !in s
  {
    if bytes > 999_999_999 then Fixed2(Hundredths(bytes, 1_000_000_000)) + "GBps"
    else if bytes > 999_999 then Fixed2(Hundredths(bytes, 1_000_000)) + "MBps"
    else if bytes > 999 then Fixed2(Hundredths(bytes, 1_000)) + "KBps"
    else NatToString(bytes) + "Bps"
  }

  /** What a rendered bandwidth says: its unit, and its amount in that unit's
      printed resolution (hundredths for the scaled units, bytes for `Bps`). */
  datatype Reading = Reading(unit: Unit, amount: nat)

  /** The reading the formatter is meant to convey for a byte count, defined
      from the thresholds and scale factors alone, without any string. A
      scaled amount always lies between 1.00 and 1000.00 of its unit (no upper
      bound for `GBps`), and a `Bps` amount has at most three digits. */
  function Expected(bytes: nat): (r: Reading)
    ensures r.unit == UnitFor(bytes)
    ensures r.unit == Bps ==> r.amount < 1_000
    ensures r.unit != Bps ==> 100 <= r.amount
    ensures r.unit in {KBps, MBps} ==> r.amount <= 100_000
  {
    var u := UnitFor(bytes);
    Reading(u, if u == Bps then bytes else Hundredths(bytes, Scale(u)))
  }

  predicate EndsWith(s: string, suffix: string) {
    |suffix| <= |s| && s[|s| - |suffix|..] == suffix
  }

  /** Reads `<digits>.<digit><digit>` back into hundredths; the whole part
      must be canonical, as `{:.2}` prints it. */
  function ParseFixed2(s: string): (r: Option<nat>)
    ensures r.Some? ==> |s| >= 4 && s[|s| - 3] == '.'
  {
    if |s| >= 4 && s[|s| - 3] == '.' && Canonical(s[..|s| - 3])
       && IsDigit(s[|s| - 2]) && IsDigit(s[|s| - 1])
    then Some(DigitsValue(s[..|s| - 3]) * 100 + DigitValue(s[|s| - 2]) * 10 + DigitValue(s[|s| - 1]))
    else None
  }

  /** Reads a rendered bandwidth back: a fixed-point number followed by one of
      the scaled suffixes, or a plain digit string followed by `Bps`. */
  function ParseBandwidth(s: string): Option<Reading> {
    if EndsWith(s, "GBps") then ParseScaled(s[..|s| - 4], GBps)
    else if EndsWith(s, "MBps") then ParseScaled(s[..|s| - 4], MBps)
    else if EndsWith(s, "KBps") then ParseScaled(s[..|s| - 4], KBps)
    else if EndsWith(s, "Bps") then
      match ParseNat(s[..|s| - 3])
      case Some(n) => Some(Reading(Bps, n))
      case None => None
    else None
  }

  function ParseScaled(s: string, u: Unit): Option<Reading> {
    match ParseFixed2(s)
    case Some(h) => Some(Reading(u, h))
    case None => None
  }

  /** Whether `s` is shown in unit `u`. The `Bps` text is also the tail of the
      scaled suffixes, so a `Bps` reading needs a digit right before it. */
  predicate ShowsUnit(s: string, u: Unit) {
    if u == Bps then EndsWith(s, "Bps") && |s| >= 4 && IsDigit(s[|s| - 4])
    else EndsWith(s, UnitText(u))
  }

  lemma {:induction false} Fixed2Parses(h: nat)
    ensures ParseFixed2(Fixed2(h)) == Some(h)
  {
    var s := Fixed2(h);
    var whole := NatToString(h / 100);
    assert s[..|s| - 3] == whole;
    DigitsValueOfNatToString(h / 100);
    assert s[|s| - 2] == DigitChar(h % 100 / 10);
    assert s[|s| - 1] == DigitChar(h % 10);
    assert h % 100 == h % 100 / 10 * 10 + h % 10;
  }

  /** A string `ParseFixed2` accepts is the two-decimal rendering of what it
      reads: no other spelling of the same amount is accepted. */
  lemma {:induction false} ParseFixed2Exact(s: string)
    requires ParseFixed2(s).Some?
    ensures Fixed2(ParseFixed2(s).value) == s
  {
    var whole := s[..|s| - 3];
    var t1 := s[|s| - 2];
    var t2 := s[|s| - 1];
    var h := ParseFixed2(s).value;
    assert h == DigitsValue(whole) * 100 + DigitValue(t1) * 10 + DigitValue(t2);
    assert h / 100 == DigitsValue(whole) && h % 100 / 10 == DigitValue(t1) && h % 10 == DigitValue(t2);
    NatToStringOfDigitsValue(whole);
    DigitCharOfValue(t1);
    DigitCharOfValue(t2);
    assert s == whole + "." + [t1, t2];
  }

  lemma ScaledParses(h: nat, u: Unit)
    requires u != Bps
    ensures ParseBandwidth(Fixed2(h) + UnitText(u)) == Some(Reading(u, h))
  {
    var s := Fixed2(h) + UnitText(u);
    assert s[..|s| - 4] == Fixed2(h);
    assert s[|s| - 4..] == UnitText(u);
    Fixed2Parses(h);
  }

  /** A digit string followed by `Bps` carries none of the scaled suffixes. */
  lemma DigitsThenBps(digits: string)
    requires |digits| > 0 && AllDigits(digits)
    ensures !EndsWith(digits + "Bps", "GBps")
    ensures !EndsWith(digits + "Bps", "MBps")
    ensures !EndsWith(digits + "Bps", "KBps")
    ensures EndsWith(digits + "Bps", "Bps")
    ensures (digits + "Bps")[..|digits|] == digits
  {
    var s := digits + "Bps";
    var tail := s[|s| - 4..];
    assert tail[0] == digits[|digits| - 1];
    assert s[|s| - 3..] == "Bps";
  }

  lemma BpsParses(n: nat)
    ensures ParseBandwidth(NatToString(n) + "Bps") == Some(Reading(Bps, n))
  {
    DigitsThenBps(NatToString(n));
    ParseNatOfNatToString(n);
  }

  /** Round trip: reading the formatted string recovers the unit picked by the
      thresholds and the amount scaled by that unit's power of ten. */
  lemma DisplayBandwidthParses(bytes: nat)
    ensures ParseBandwidth(DisplayBandwidth(bytes)) == Some(Expected(bytes))
  {
    var u := UnitFor(bytes);
    if u == Bps {
      BpsParses(bytes);
    } else {
      ScaledParses(Hundredths(bytes, Scale(u)), u);
    }
  }

  /** The text a reading is shown as: a scaled amount with two decimals and
      its suffix, or a plain count followed by `Bps`. */
  function ShowReading(r: Reading): string {
    if r.unit == Bps then NatToString(r.amount) + "Bps" else Fixed2(r.amount) + UnitText(r.unit)
  }

  /** `ParseBandwidth` accepts exactly one spelling per reading: a string it
      reads as `r` is `ShowReading(r)`, with no zero padding or other variant. */
  lemma ParseBandwidthExact(s: string)
    requires ParseBandwidth(s).Some?
    ensures s == ShowReading(ParseBandwidth(s).value)
  {
    var r := ParseBandwidth(s).value;
    if EndsWith(s, "GBps") || EndsWith(s, "MBps") || EndsWith(s, "KBps") {
      var body := s[..|s| - 4];
      ParseFixed2Exact(body);
      assert s == body + s[|s| - 4..];
    } else {
      var body := s[..|s| - 3];
      ParseNatExact(body);
      assert s == body + s[|s| - 3..];
    }
  }

  /** The formatted string is the only one that reads as `Expected(bytes)`:
      the round trip determines the text completely. */
  lemma OnlyDisplayReadsAsExpected(s: string, bytes: nat)
    requires ParseBandwidth(s) == Some(Expected(bytes))
    ensures s == DisplayBandwidth(bytes)
  {
    ParseBandwidthExact(s);
    DisplayBandwidthParses(bytes);
    ParseBandwidthExact(DisplayBandwidth(bytes));
  }

  /** A scaled suffix shows its own unit and no other. */
  lemma ScaledSuffixShowsUnit(body: string, u0: Unit)
    requires u0 != Bps
    ensures forall u :: ShowsUnit(body + UnitText(u0), u) <==> u == u0
  {
    var s := body + UnitText(u0);
    assert s[|s| - 4..] == UnitText(u0);
    assert s[|s| - 3..] == "Bps";
    assert !IsDigit(s[|s| - 4]);
  }

  /** A digit string followed by `Bps` shows `Bps` and no other unit. */
  lemma DigitsShowBps(digits: string)
    requires |digits| > 0 && AllDigits(digits)
    ensures forall u :: ShowsUnit(digits + "Bps", u) <==> u == Bps
  {
    var s := digits + "Bps";
    DigitsThenBps(digits);
    assert s[|s| - 4] == digits[|digits| - 1];
  }

  /** Exactly one unit is shown, and it is the one the thresholds pick. */
  lemma ExactlyOneUnit(bytes: nat)
    ensures forall u :: ShowsUnit(DisplayBandwidth(bytes), u) <==> u == UnitFor(bytes)
  {
    var u0 := UnitFor(bytes);
    if u0 == Bps {
      DigitsShowBps(NatToString(bytes));
    } else {
      var body := Fixed2(Hundredths(bytes, Scale(u0)));
      assert DisplayBandwidth(bytes) == body + UnitText(u0);
      ScaledSuffixShowsUnit(body, u0);
    }
  }

  /** A two-decimal amount keeps its single point seven characters from the
      end once a four-letter suffix follows it. */
  lemma PointBeforeSuffix(h: nat, suffix: string)
    requires |suffix| == 4
    ensures var s := Fixed2(h) + suffix;
      |s| >= 8 && s[|s| - 7] == '.' && IsDigit(s[|s| - 6]) && IsDigit(s[|s| - 5])
      && '.' !in s[..|s| - 7]
  {
    var body := Fixed2(h);
    var s := body + suffix;
    assert s[..|s| - 7] == body[..|body| - 3];
    assert s[|s| - 7] == body[|body| - 3];
    assert s[|s| - 6] == body[|body| - 2] && s[|s| - 5] == body[|body| - 1];
  }

  /** A digit string followed by `Bps` has no decimal point. */
  lemma NoPointInCount(digits: string)
    requires AllDigits(digits)
    ensures '.' !in digits + "Bps"
  {
    var s := digits + "Bps";
    assert forall i :: 0 <= i < |digits| ==> s[i] == digits[i];
  }

  /** The `Bps` branch prints the bare integer, with no decimal point; the
      scaled branches print exactly two digits after the point. */
  lemma DecimalPointPlacement(bytes: nat)
    ensures UnitFor(bytes) == Bps ==> DisplayBandwidth(bytes) == NatToString(bytes) + "Bps" && '.' !in DisplayBandwidth(bytes)
    ensures UnitFor(bytes) != Bps ==>
      var s := DisplayBandwidth(bytes);
      |s| >= 8 && s[|s| - 7] == '.' && IsDigit(s[|s| - 6]) && IsDigit(s[|s| - 5])
      && '.' !in s[..|s| - 7]
  {
    var u0 := UnitFor(bytes);
    if u0 == Bps {
      NoPointInCount(NatToString(bytes));
    } else {
      var h := Hundredths(bytes, Scale(u0));
      assert DisplayBandwidth(bytes) == Fixed2(h) + UnitText(u0);
      PointBeforeSuffix(h, UnitText(u0));
    }
  }

  /** The boundary values and the documented renderings. */
  lemma SmallExamples()
    ensures DisplayBandwidth(0) == "0Bps"
    ensures DisplayBandwidth(500) == "500Bps"
    ensures DisplayBandwidth(999) == "999Bps"
  {
  }

  /** The rendering of a scaled amount from its whole part and two decimals. */
  lemma Fixed2Digits(h: nat, whole: string, tenths: char, hundredths: char)
    requires whole == NatToString(h / 100)
    requires tenths == DigitChar(h % 100 / 10) && hundredths == DigitChar(h % 10)
    ensures Fixed2(h) == whole + "." + [tenths, hundredths]
  {
  }

  lemma KiloExamples()
    ensures DisplayBandwidth(1_000) == "1.00KBps"
    ensures DisplayBandwidth(2_000) == "2.00KBps"
    ensures DisplayBandwidth(999_999) == "1000.00KBps"
  {
    assert NatToString(1) == "1";
    assert NatToString(2) == "2";
    assert NatToString(1000) == "1000" by {
      assert NatToString(10) == "10";
      assert NatToString(100) == "100";
    }
    assert Hundredths(1_000, 1_000) == 100;
    Fixed2Digits(100, "1", '0', '0');
    assert Hundredths(2_000, 1_000) == 200;
    Fixed2Digits(200, "2", '0', '0');
    assert Hundredths(999_999, 1_000) == 100_000;
    Fixed2Digits(100_000, "1000", '0', '0');
  }

  lemma MegaAndGigaExamples()
    ensures DisplayBandwidth(1_000_000) == "1.00MBps"
    ensures DisplayBandwidth(1_500_000) == "1.50MBps"
    ensures DisplayBandwidth(1_000_000_000) == "1.00GBps"
    ensures DisplayBandwidth(2_500_000_000) == "2.50GBps"
  {
    assert NatToString(1) == "1";
    assert NatToString(2) == "2";
    assert Hundredths(1_000_000, 1_000_000) == 100;
    Fixed2Digits(100, "1", '0', '0');
    assert Hundredths(1_500_000, 1_000_000) == 150;
    Fixed2Digits(150, "1", '5', '0');
    assert Hundredths(1_000_000_000, 1_000_000_000) == 100;
    assert Hundredths(2_500_000_000, 1_000_000_000) == 250;
    Fixed2Digits(250, "2", '5', '0');
  }
}
