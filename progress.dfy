/**
 * `progressBar` (script.js): a 22-cell text bar for a percentage, followed by the
 * percentage right-aligned in three columns and a percent sign.
 */
module Progress {
  import opened Wrappers
  import opened JsString

  const Width: nat := 22
  const FullCell := '█'
  const EmptyCell := '░'

  /**
   * `Math.round((pct / 100) * width)` for an integer `pct`, in integer arithmetic:
   * the share of the width, rounded half up (Dafny's `/` floors for a positive divisor).
   */
  function Filled(pct: int): int
  {
    (pct * 22 + 50) / 100
  }

  /** `Math.round` over exact reals: the nearest integer, halves rounded up. */
  ghost function RoundHalfUp(x: real): int
  {
    (x + 0.5).Floor
  }

  /** The integer formula is `Math.round` of the exact share of the width. */
  lemma FilledRounds(pct: int)
    ensures Filled(pct) == RoundHalfUp((pct as real / 100.0) * (Width as real))
  {
  }

  /**
   * `progressBar(pct)`. `String.prototype.repeat` throws a RangeError on a negative
   * count, which happens when fewer than zero cells are filled or fewer than zero
   * are left empty: that is `None`.
   */
  function ProgressBar(pct: int): (r: Option<string>)
    ensures r.Some? <==> -2 <= pct <= 102
  {
    var filled := Filled(pct);
    var empty := Width - filled;
    FilledDrawable(pct);
    if filled < 0 || empty < 0 then None
    else Some(Bar(filled, empty, Numeral(pct)))
  }

  /** The template literal: the cells between brackets, a space, the numeral and `%`. */
  function Bar(filled: nat, empty: nat, numeral: string): string
  {
    "[" + Cells(filled, empty) + "] " + numeral + "%"
  }

  /** `"█".repeat(filled) + "░".repeat(empty)`: the full cells first, then the empty ones. */
  function Cells(filled: nat, empty: nat): (r: string)
    ensures |r| == filled + empty
    ensures forall i :: 0 <= i < |r| ==> r[i] == if i < filled then FullCell else EmptyCell
  {
    Repeat(FullCell, filled) + Repeat(EmptyCell, empty)
  }

  lemma BarLayout(r: string, filled: nat, empty: nat, numeral: string)
    requires filled + empty == Width && |numeral| == 3
    requires r == Bar(filled, empty, numeral)
    ensures |r| == 29
    ensures r[0] == '[' && r[23] == ']' && r[24] == ' ' && r[28] == '%'
    ensures r[1..23] == Cells(filled, empty)
    ensures r[25..28] == numeral
  {
  }

  /** Both repeat counts are non-negative exactly for the percentages -2 to 102. */
  lemma FilledDrawable(pct: int)
    ensures 0 <= Filled(pct) <= Width <==> -2 <= pct <= 102
  {
  }

  /**
   * The drawn bar: `[`, then the 22 cells with the rounded share of them full and
   * the rest empty, then `] `, the percentage padded on the left with spaces to
   * three columns, and `%`.
   */
  lemma ProgressBarLayout(pct: int)
    requires -2 <= pct <= 102
    ensures ProgressBar(pct).Some?
    ensures |ProgressBar(pct).value| == 29
    ensures ProgressBar(pct).value[0] == '[' && ProgressBar(pct).value[23] == ']'
    ensures ProgressBar(pct).value[24] == ' ' && ProgressBar(pct).value[28] == '%'
    ensures ProgressBar(pct).value[1..23] == Cells(Filled(pct), Width - Filled(pct))
    ensures ProgressBar(pct).value[25..28] == Numeral(pct)
    ensures 0 <= Filled(pct) <= Width
  {
    ProgressBarIsBar(pct);
    BarLayout(ProgressBar(pct).value, Filled(pct), Width - Filled(pct), Numeral(pct));
  }

  lemma ProgressBarIsBar(pct: int)
    requires -2 <= pct <= 102
    ensures 0 <= Filled(pct) <= Width
    ensures ProgressBar(pct) == Some(Bar(Filled(pct), Width - Filled(pct), Numeral(pct)))
  {
    FilledDrawable(pct);
  }

  /**
   * `pct.toString().padStart(3, " ")` for the percentages a bar is drawn for,
   * spelled out digit by digit (`NumeralIsPadded` shows the two agree).
   */
  function Numeral(pct: int): (r: string)
    requires -2 <= pct <= 102
    ensures |r| == 3
  {
    if pct < 0 then [' ', '-', DigitChar(-pct)]
    else if pct < 10 then [' ', ' ', DigitChar(pct)]
    else if pct < 100 then [' ', DigitChar(pct / 10), DigitChar(pct % 10)]
    else [DigitChar(pct / 100), DigitChar(pct / 10 % 10), DigitChar(pct % 10)]
  }

  /** The digit-by-digit numeral is the decimal numeral padded on the left with spaces. */
  lemma NumeralIsPadded(pct: int)
    requires -2 <= pct <= 102
    ensures Numeral(pct) == PadStart(IntToString(pct), 3, ' ')
  {
    if pct < 0 {
      assert IntToString(pct) == "-" + [DigitChar(-pct)];
    } else if pct < 10 {
      assert IntToString(pct) == [DigitChar(pct)];
    } else if pct < 100 {
      assert NatToString(pct / 10) == [DigitChar(pct / 10)];
      assert IntToString(pct) == [DigitChar(pct / 10), DigitChar(pct % 10)];
    } else {
      assert NatToString(pct / 100) == [DigitChar(pct / 100)];
      assert NatToString(pct / 10) == [DigitChar(pct / 100), DigitChar(pct / 10 % 10)];
      assert IntToString(pct) == [DigitChar(pct / 100), DigitChar(pct / 10 % 10), DigitChar(pct % 10)];
    }
  }

  /** Between 0 and 100 the bar is drawn, with between 0 and 22 cells filled. */
  lemma FilledInRange(pct: int)
    requires 0 <= pct <= 100
    ensures 0 <= Filled(pct) <= Width
    ensures ProgressBar(pct).Some?
  {
  }

  /** More percent never fills fewer cells. */
  lemma FilledMonotone(p: int, q: int)
    requires p <= q
    ensures Filled(p) <= Filled(q)
  {
  }

  /** Every cell filled at a smaller percentage is still filled at a larger one. */
  lemma ProgressBarMonotone(p: int, q: int)
    requires -2 <= p <= q <= 102
    ensures ProgressBar(p).Some? && ProgressBar(q).Some?
    ensures forall i :: 1 <= i <= Width && ProgressBar(p).value[i] == FullCell ==> ProgressBar(q).value[i] == FullCell
  {
    FilledMonotone(p, q);
    ProgressBarLayout(p);
    ProgressBarLayout(q);
    CellsStayFull(ProgressBar(p).value, ProgressBar(q).value, Filled(p), Filled(q));
  }

  lemma CellsStayFull(a: string, b: string, fa: nat, fb: nat)
    requires fa <= fb <= Width && |a| == 29 && |b| == 29
    requires a[1..23] == Cells(fa, Width - fa) && b[1..23] == Cells(fb, Width - fb)
    ensures forall i :: 1 <= i <= Width && a[i] == FullCell ==> b[i] == FullCell
  {
    forall i | 1 <= i <= Width && a[i] == FullCell
      ensures b[i] == FullCell
    {
      assert a[i] == a[1..23][i - 1];
      assert b[i] == b[1..23][i - 1];
    }
  }

  lemma BarTail(cells: string, numeral: string)
    ensures "[" + cells + "] " + numeral + "%" == "[" + cells + ("] " + numeral + "%")
  {
  }

  /** At 0 percent every cell is empty; at 100 every cell is full. */
  lemma ProgressBarEnds()
    ensures ProgressBar(0) == Some("[" + Repeat(EmptyCell, Width) + "]   0%")
    ensures ProgressBar(100) == Some("[" + Repeat(FullCell, Width) + "] 100%")
  {
    assert Filled(0) == 0 && Filled(100) == Width;
    assert Numeral(0) == "  0" && Numeral(100) == "100";
    assert ProgressBar(0) == Some(Bar(0, Width, "  0"));
    assert ProgressBar(100) == Some(Bar(Width, 0, "100"));
    assert Repeat(FullCell, 0) == [] && Repeat(EmptyCell, 0) == [];
    assert Cells(0, Width) == [] + Repeat(EmptyCell, Width) == Repeat(EmptyCell, Width);
    assert Cells(Width, 0) == Repeat(FullCell, Width) + [] == Repeat(FullCell, Width);
    assert "] " + "  0" + "%" == "]   0%";
    assert "] " + "100" + "%" == "] 100%";
    BarTail(Cells(0, Width), "  0");
    BarTail(Cells(Width, 0), "100");
  }
}
