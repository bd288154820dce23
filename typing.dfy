/**
 * `typeLine` (script.js): clears an element and reveals a text into it one
 * character at a time, sleeping a random delay after each character and now and
 * then pausing longer before one. `Math.random` is an oracle here: `random(k)` is
 * the k-th draw, and the draws are consumed in the order the script makes them.
 */
module Typing {
  import opened Wrappers
  import opened Dom

  /** The options object; an omitted property takes the destructuring default. */
  datatype TypeOptions = TypeOptions(
    minDelay: Option<real> := None,
    maxDelay: Option<real> := None,
    jitterChance: Option<real> := None,
    pauseChance: Option<real> := None,
    pauseMin: Option<real> := None,
    pauseMax: Option<real> := None)

  /** The timing parameters after defaulting. */
  datatype Timing = Timing(minDelay: real, maxDelay: real, jitterChance: real,
                           pauseChance: real, pauseMin: real, pauseMax: real)

  function OrDefault(v: Option<real>, default: real): real
  {
    if v.Some? then v.value else default
  }

  /** `const { minDelay = 12, maxDelay = 28, ... } = options`. */
  function Resolve(o: TypeOptions): Timing
  {
    Timing(OrDefault(o.minDelay, 12.0), OrDefault(o.maxDelay, 28.0),
           OrDefault(o.jitterChance, 0.04), OrDefault(o.pauseChance, 0.03),
           OrDefault(o.pauseMin, 120.0), OrDefault(o.pauseMax, 420.0))
  }

  /** Bounds under which every sleep stays within its range. */
  predicate Ordered(t: Timing)
  {
    0.0 <= t.minDelay <= t.maxDelay && t.pauseMin <= t.pauseMax
  }

  /** The defaults of `typeLine` are ordered, so with no options every range clause applies. */
  lemma DefaultsOrdered()
    ensures Ordered(Resolve(TypeOptions()))
  {
  }

  /** A pause lies between `pauseMin` and `pauseMax`. */
  predicate PauseInRange(t: Timing, p: real)
  {
    t.pauseMin <= p <= t.pauseMax
  }

  /** A delay lies between `minDelay` and 2.2 times `maxDelay` (the jitter stretches it). */
  predicate DelayInRange(t: Timing, d: real)
  {
    t.minDelay <= d <= 2.2 * t.maxDelay
  }

  /** `lo + r * (hi - lo)` for a draw r in [0, 1) lies between lo and hi. */
  lemma Scale(lo: real, hi: real, r: real)
    requires lo <= hi && 0.0 <= r < 1.0
    ensures lo <= lo + r * (hi - lo) <= hi
  {
    var w := hi - lo;
    MulNonneg(r, w);
    MulNonneg(1.0 - r, w);
    assert (1.0 - r) * w == w - r * w;
  }

  lemma MulNonneg(a: real, b: real)
    requires 0.0 <= a && 0.0 <= b
    ensures 0.0 <= a * b
  {
  }

  /** A delay between lo and hi, stretched by 2.2, stays between lo and 2.2 times hi. */
  lemma Stretch(lo: real, hi: real, d: real)
    requires 0.0 <= lo <= d <= hi
    ensures lo <= d * 2.2 <= 2.2 * hi
  {
    MulNonneg(hi - d, 2.2);
  }

  /**
   * Lines 69-72: with probability `pauseChance` a pause of `pauseMin` to `pauseMax`
   * before the character. Returns the pause (if any) and the index of the next draw.
   */
  method MaybePause(t: Timing, random: nat -> real, draw: nat) returns (pause: Option<real>, next: nat)
    requires forall k :: 0.0 <= random(k) < 1.0
    ensures pause.Some? <==> random(draw) < t.pauseChance
    ensures next == if pause.Some? then draw + 2 else draw + 1
    ensures Ordered(t) && pause.Some? ==> PauseInRange(t, pause.value)
  {
    if random(draw) < t.pauseChance {
      var p := t.pauseMin + random(draw + 1) * (t.pauseMax - t.pauseMin);
      if Ordered(t) {
        Scale(t.pauseMin, t.pauseMax, random(draw + 1));
      }
      pause, next := Some(p), draw + 2;
    } else {
      pause, next := None, draw + 1;
    }
  }

  /**
   * Lines 76-79: the delay after a character, `minDelay` to `maxDelay`, multiplied
   * by 2.2 with probability `jitterChance`. Returns it and the index of the next draw.
   */
  method Delay(t: Timing, random: nat -> real, draw: nat) returns (d: real, next: nat)
    requires forall k :: 0.0 <= random(k) < 1.0
    ensures next == draw + 2
    ensures Ordered(t) ==> DelayInRange(t, d)
    ensures Ordered(t) && !(random(draw + 1) < t.jitterChance) ==> d <= t.maxDelay
  {
    d := t.minDelay + random(draw) * (t.maxDelay - t.minDelay);
    if Ordered(t) {
      Scale(t.minDelay, t.maxDelay, random(draw));
    }
    if random(draw + 1) < t.jitterChance {
      if Ordered(t) {
        Stretch(t.minDelay, t.maxDelay, d);
      }
      d := d * 2.2;
    }
    next := draw + 2;
  }

  /**
   * One call of `typeLine(el, text, options)`. Without an element nothing happens.
   * Otherwise the element is cleared and, after the i-th character is appended, it
   * shows exactly the first i characters; at the end it shows the whole text,
   * whatever the draws were. The draws decide only the sleeps: before character i
   * the optional pause `pauses[i]`, after it the delay `delays[i]`.
   */
  method TypeLine(el: Element?, text: string, random: nat -> real, options: TypeOptions := TypeOptions())
    returns (pauses: seq<Option<real>>, delays: seq<real>, shown: seq<string>)
    requires forall k :: 0.0 <= random(k) < 1.0
    modifies el
    ensures el == null ==> pauses == [] && delays == [] && shown == []
    ensures el != null ==> el.content == text && el.items == old(el.items)
    ensures el != null ==> |shown| == |text| && forall i :: 0 <= i < |text| ==> shown[i] == text[..i + 1]
    ensures el != null ==> |pauses| == |text| && |delays| == |text|
    ensures Ordered(Resolve(options)) ==>
      forall i :: 0 <= i < |pauses| && pauses[i].Some? ==> PauseInRange(Resolve(options), pauses[i].value)
    ensures Ordered(Resolve(options)) ==> forall i :: 0 <= i < |delays| ==> DelayInRange(Resolve(options), delays[i])
  {
    pauses, delays, shown := [], [], [];
    if el == null {
      return;
    }
    var t := Resolve(options);
    el.content := "";
    var draw: nat := 0;
    for i := 0 to |text|
      invariant el.content == text[..i] && el.items == old(el.items)
      invariant |shown| == i && forall j :: 0 <= j < i ==> shown[j] == text[..j + 1]
      invariant |pauses| == i && |delays| == i
      invariant Ordered(t) ==> forall j :: 0 <= j < i && pauses[j].Some? ==> PauseInRange(t, pauses[j].value)
      invariant Ordered(t) ==> forall j :: 0 <= j < i ==> DelayInRange(t, delays[j])
    {
      var pause;
      pause, draw := MaybePause(t, random, draw);
      pauses := pauses + [pause];

      el.content := el.content + [text[i]];
      assert el.content == text[..i + 1];
      shown := shown + [el.content];

      var d;
      d, draw := Delay(t, random, draw);
      delays := delays + [d];
    }
  }
}
