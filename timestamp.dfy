/** The wall-clock field of a telemetry line, `LocalTime.now()` rendered with the pattern "HH:mm:ss". */
module Timestamp {
  import opened Wrappers
  import opened Decimal

  /** A time of day to the second; the clock reading is an input of the model. */
  datatype Time = Time(hour: nat, minute: nat, second: nat)

  predicate ValidTime(t: Time) {
    t.hour < 24 && t.minute < 60 && t.second < 60
  }

  /** The value of the two digits at `s[k]`, `s[k + 1]`. */
  function TwoDigitValue(s: string, k: nat): nat
    requires k + 1 < |s| && IsDigit(s[k]) && IsDigit(s[k + 1])
  {
    10 * DigitValue(s[k]) + DigitValue(s[k + 1])
  }

  /** A zero-padded two-digit field. */
  function TwoDigits(n: nat): (s: string)
    requires n < 100
    ensures |s| == 2 && IsDigit(s[0]) && IsDigit(s[1]) && TwoDigitValue(s, 0) == n
  {
    [DigitChar(n / 10), DigitChar(n % 10)]
  }

  /** Is `s` an eight-character "dd:dd:dd" string? */
  predicate Shaped(s: string) {
    && |s| == 8
    && s[2] == ':' && s[5] == ':'
    && IsDigit(s[0]) && IsDigit(s[1])
    && IsDigit(s[3]) && IsDigit(s[4])
    && IsDigit(s[6]) && IsDigit(s[7])
  }

  /** "HH:mm:ss": three zero-padded fields separated by ':' at positions 2 and 5. */
  function Format(t: Time): (s: string)
    requires ValidTime(t)
    ensures Shaped(s)
    ensures TwoDigitValue(s, 0) == t.hour && TwoDigitValue(s, 3) == t.minute && TwoDigitValue(s, 6) == t.second
  {
    TwoDigits(t.hour) + ":" + TwoDigits(t.minute) + ":" + TwoDigits(t.second)
  }

  /** Reads an "HH:mm:ss" string back; None unless it is shaped so and in range. */
  function Parse(s: string): (r: Option<Time>)
    ensures r.Some? ==> ValidTime(r.value)
  {
    if !Shaped(s) then None
    else
      var t := Time(TwoDigitValue(s, 0), TwoDigitValue(s, 3), TwoDigitValue(s, 6));
      if ValidTime(t) then Some(t) else None
  }

  /** Parsing a formatted time recovers hour, minute and second. */
  lemma ParseFormat(t: Time)
    requires ValidTime(t)
    ensures Parse(Format(t)) == Some(t)
  {
  }

  /** Every string that parses is the formatting of what it parses to. */
  lemma FormatParse(s: string)
    requires Parse(s).Some?
    ensures Format(Parse(s).value) == s
  {
    var f := Format(Parse(s).value);
    forall k | 0 <= k < 8 ensures f[k] == s[k] {
      DigitsDetermined(s, f, k - k % 3);
    }
  }

  /** Two digit pairs with the same value are the same characters. */
  lemma DigitsDetermined(s: string, f: string, k: nat)
    requires k + 1 < |s| && k + 1 < |f|
    requires IsDigit(s[k]) && IsDigit(s[k + 1]) && IsDigit(f[k]) && IsDigit(f[k + 1])
    requires TwoDigitValue(s, k) == TwoDigitValue(f, k)
    ensures s[k] == f[k] && s[k + 1] == f[k + 1]
  {
  }
}
