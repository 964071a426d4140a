/** `pts_to_timestamp`: the `H:MM:SS.f` timecode of the preview subtitles.
    The float input is taken apart into its whole seconds `n` and its
    centisecond field `cs` (`int((pts - floor(pts)) * 100)`). */
module Timestamp {
  import opened PyText

  /** Hours, minutes and seconds of `n` whole seconds, computed as the
      source does: `floor(n / 60 / 60)`, `floor(n / 60) % 60`, `n % 60`. */
  function Clock(n: nat): (hms: (nat, nat, nat))
    ensures hms.1 < 60 && hms.2 < 60
    ensures hms.0 * 3600 + hms.1 * 60 + hms.2 == n
  {
    (n / 60 / 60, n / 60 % 60, n % 60)
  }

  /** The decomposition is the only one with minutes and seconds below 60. */
  lemma ClockUnique(n: nat, h: nat, m: nat, s: nat)
    requires m < 60 && s < 60 && h * 3600 + m * 60 + s == n
    ensures Clock(n) == (h, m, s)
  {
    assert n == (h * 60 + m) * 60 + s;
    assert n % 60 == s && n / 60 == h * 60 + m;
    assert (h * 60 + m) / 60 == h && (h * 60 + m) % 60 == m;
  }

  /** The `H:MM:SS` part of a timecode. */
  function ClockText(n: nat): string {
    var hms := Clock(n);
    NatToString(hms.0) + ":" + ZeroPad(hms.1, 2) + ":" + ZeroPad(hms.2, 2)
  }

  /** A timecode with the given fractional digits after the point. */
  function Stamp(n: nat, fraction: string): string {
    ClockText(n) + "." + fraction
  }

  /** `pts_to_timestamp` as written: the centiseconds are printed with
      `.{ms}`, without padding. */
  function PtsToTimestamp(n: nat, cs: nat): string
    requires cs < 100
  {
    Stamp(n, NatToString(cs))
  }

  /** The timecode with centiseconds padded to two digits, as the
      `H:MM:SS.cc` format of subtitle files expects. */
  function PaddedTimestamp(n: nat, cs: nat): string
    requires cs < 100
  {
    Stamp(n, ZeroPad(cs, 2))
  }

  /** The fractional field of a timecode: what follows its last point. */
  function FractionField(stamp: string): string {
    var parts := SplitOn(stamp, '.');
    parts[|parts| - 1]
  }

  /** The value of a fractional field read as decimal digits after a point. */
  function FractionReading(digits: string): real
    requires IsDigits(digits)
  {
    DigitsValue(digits) as real / Pow10(|digits|) as real
  }

  /** The clock part holds no point. */
  lemma ClockTextHasNoPoint(n: nat)
    ensures '.' !in ClockText(n)
  {
    var hms := Clock(n);
    var h, m, s := NatToString(hms.0), ZeroPad(hms.1, 2), ZeroPad(hms.2, 2);
    DigitsExclude(h, '.');
    DigitsExclude(m, '.');
    DigitsExclude(s, '.');
    assert ClockText(n) == h + ":" + m + ":" + s;
  }

  /** The fraction field of a timecode is the digits it was given. */
  lemma StampFraction(n: nat, fraction: string)
    requires IsDigits(fraction)
    ensures FractionField(Stamp(n, fraction)) == fraction
  {
    DigitsExclude(fraction, '.');
    ClockTextHasNoPoint(n);
    SplitOnPair(ClockText(n), '.', fraction);
  }

  /** A timecode split at its colons: hours, minutes, and the seconds with
      the fraction. */
  lemma StampColons(n: nat, fraction: string)
    requires IsDigits(fraction)
    ensures var hms := Clock(n);
      SplitOn(Stamp(n, fraction), ':') ==
        [NatToString(hms.0), ZeroPad(hms.1, 2), ZeroPad(hms.2, 2) + "." + fraction]
  {
    var hms := Clock(n);
    var h, m, s := NatToString(hms.0), ZeroPad(hms.1, 2), ZeroPad(hms.2, 2);
    DigitsExclude(h, ':');
    DigitsExclude(m, ':');
    DigitsExclude(s, ':');
    DigitsExclude(fraction, ':');
    var tail := s + "." + fraction;
    assert ':' !in tail;
    assert Stamp(n, fraction) == h + [':'] + (m + [':'] + tail);
    SplitOnField(h, ':', m + [':'] + tail);
    SplitOnField(m, ':', tail);
    SplitOnWhole(tail, ':');
  }

  /** Taken apart at its colons and its point, a timecode gives back the
      hours, the two-digit minutes and seconds below 60 that make up `n`, and
      the fraction digits it was given. */
  lemma StampFields(n: nat, fraction: string)
    requires IsDigits(fraction)
    ensures var parts := SplitOn(Stamp(n, fraction), ':');
      |parts| == 3 &&
      var sf := SplitOn(parts[2], '.');
      |sf| == 2 && sf[1] == fraction && FractionField(Stamp(n, fraction)) == fraction &&
      IsDigits(parts[0]) && IsDigits(parts[1]) && IsDigits(sf[0]) &&
      |parts[0]| > 0 && |parts[1]| == 2 && |sf[0]| == 2 &&
      DigitsValue(parts[1]) < 60 && DigitsValue(sf[0]) < 60 &&
      DigitsValue(parts[0]) * 3600 + DigitsValue(parts[1]) * 60 + DigitsValue(sf[0]) == n
  {
    var hms := Clock(n);
    var s := ZeroPad(hms.2, 2);
    NatToStringLength(hms.1, 2);
    NatToStringLength(hms.2, 2);
    StampColons(n, fraction);
    DigitsExclude(s, '.');
    DigitsExclude(fraction, '.');
    SplitOnPair(s, '.', fraction);
    StampFraction(n, fraction);
  }

  /** As written: the timecode splits into the clock fields of `n`, and the
      fraction field is `cs` in one digit below 10 and two digits otherwise. */
  lemma TimestampFields(n: nat, cs: nat)
    requires cs < 100
    ensures var f := FractionField(PtsToTimestamp(n, cs));
      IsDigits(f) && DigitsValue(f) == cs && |f| == (if cs < 10 then 1 else 2)
  {
    StampFraction(n, NatToString(cs));
  }

  /** The unpadded field misreads: for 1 to 9 centiseconds the one digit
      reads as tenths, so `n` seconds and `cs` centiseconds print with the
      same decimal value as `n` seconds and `10 * cs` centiseconds
      (1.05 s prints as `0:00:01.5`, which reads as 1.5 s). */
  lemma UnpaddedFractionMisread(n: nat, cs: nat)
    requires 0 < cs < 10
    ensures var f := FractionField(PtsToTimestamp(n, cs));
      IsDigits(f) && FractionReading(f) == cs as real / 10.0 &&
      FractionReading(f) != cs as real / 100.0 &&
      IsDigits(FractionField(PtsToTimestamp(n, 10 * cs))) &&
      FractionReading(f) == FractionReading(FractionField(PtsToTimestamp(n, 10 * cs)))
  {
    StampFraction(n, NatToString(cs));
    StampFraction(n, NatToString(10 * cs));
    assert Pow10(1) == 10 && Pow10(2) == 100;
  }

  /** Corrected: the padded field always has two digits and reads as exactly
      `cs` hundredths of a second. */
  lemma PaddedFractionReading(n: nat, cs: nat)
    requires cs < 100
    ensures var f := FractionField(PaddedTimestamp(n, cs));
      IsDigits(f) && |f| == 2 && DigitsValue(f) == cs &&
      FractionReading(f) == cs as real / 100.0
  {
    NatToStringLength(cs, 2);
    StampFraction(n, ZeroPad(cs, 2));
    assert Pow10(2) == 100;
  }
}
