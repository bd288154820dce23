/**
 * `nowTS` (script.js): a closure over a counter `t` that starts at 6 and is
 * incremented before every stamp, so stamps read 00:00:07, 00:00:08, ... The
 * seconds field is the counter itself, padded to two digits; it never carries
 * into the minutes.
 */
module Clock {
  import opened JsString

  /** The counter's value when the closure is created. */
  const Initial: nat := 6

  /** The stamp for counter value `t`. */
  function Stamp(t: nat): string
  {
    "00:00:" + PadStart(NatToString(t), 2, '0')
  }

  /**
   * A stamp is `00:00:` followed by at least two decimal digits whose value is the
   * counter; from 10 on the digits are exactly the counter's numeral.
   */
  lemma StampFields(t: nat)
    ensures |Stamp(t)| >= 8 && Stamp(t)[..6] == "00:00:"
    ensures AllDigits(Stamp(t)[6..]) && DecimalValue(Stamp(t)[6..]) == t
    ensures t >= 10 ==> Stamp(t)[6..] == NatToString(t)
    ensures t < 10 ==> Stamp(t)[6..] == ['0', DigitChar(t)]
  {
    var s := Stamp(t);
    assert s[6..] == PadStart(NatToString(t), 2, '0');
    NatToStringRoundTrip(t);
    ZeroPadValue(NatToString(t), 2);
  }

  /** Later stamps carry strictly larger seconds values. */
  lemma StampIncreasing(t: nat, u: nat)
    requires t < u
    ensures Stamp(t) != Stamp(u)
    ensures DecimalValue(Stamp(t)[6..]) < DecimalValue(Stamp(u)[6..])
  {
    StampFields(t);
    StampFields(u);
  }

  /** A stamp holds only digits and colons, nothing that opens a tag. */
  lemma StampHasNoMarkup(t: nat)
    ensures forall i :: 0 <= i < |Stamp(t)| ==> Stamp(t)[i] == ':' || IsDigit(Stamp(t)[i])
    ensures '<' !in Stamp(t)
  {
  }

  /** The closure's state: the counter `t`. */
  class Counter {
    var t: nat

    constructor ()
      ensures t == Initial
    {
      t := Initial;
    }

    /** One call of `nowTS()`: advance the counter, then format it. */
    method Next() returns (stamp: string)
      modifies this
      ensures t == old(t) + 1
      ensures stamp == Stamp(t)
    {
      t := t + 1;
      stamp := "00:00:" + PadStart(NatToString(t), 2, '0');
    }
  }

  /** The first two stamps a fresh closure hands out. */
  method BootStamps() returns (first: string, second: string)
    ensures first == "00:00:07" && second == "00:00:08"
  {
    var clock := new Counter();
    first := clock.Next();
    second := clock.Next();
  }
}
