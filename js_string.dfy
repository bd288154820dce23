/**
 * The JavaScript string and array built-ins the terminal script relies on, stated
 * over `seq<char>`: String.prototype.repeat, padStart, replaceAll, split (on one
 * character), Array.prototype.join and Number.prototype.toString for integers.
 */
module JsString {

  /** `String(c).repeat(n)`: the character `c`, `n` times. */
  function Repeat(c: char, n: nat): (r: string)
    ensures |r| == n
    ensures forall i :: 0 <= i < n ==> r[i] == c
  {
    if n == 0 then [] else [c] + Repeat(c, n - 1)
  }

  /** `s.padStart(width, fill)` for a one-character `fill`. */
  function PadStart(s: string, width: nat, fill: char): (r: string)
    ensures |r| == if |s| < width then width else |s|
    ensures r[|r| - |s|..] == s
    ensures forall i :: 0 <= i < |r| - |s| ==> r[i] == fill
  {
    if |s| < width then Repeat(fill, width - |s|) + s else s
  }

  // ---------- Decimal numerals ----------

  predicate IsDigit(c: char) { '0' <= c <= '9' }

  predicate AllDigits(s: string) { forall i :: 0 <= i < |s| ==> IsDigit(s[i]) }

  function DigitChar(d: nat): (c: char)
    requires d < 10
    ensures IsDigit(c) && DigitValue(c) == d
  {
    (48 + d) as char
  }

  function DigitValue(c: char): nat
    requires IsDigit(c)
  {
    c as nat - 48
  }

  /** The value of a string of decimal digits, leading zeros allowed. */
  function DecimalValue(s: string): nat
    requires AllDigits(s)
  {
    if s == [] then 0 else DecimalValue(s[..|s| - 1]) * 10 + DigitValue(s[|s| - 1])
  }

  /** `String(n)` for a non-negative integer: shortest decimal numeral, no leading zero. */
  function NatToString(n: nat): (r: string)
    ensures |r| >= 1 && AllDigits(r)
    ensures r[0] == '0' ==> n == 0
    ensures |r| == 1 <==> n < 10
  {
    if n < 10 then [DigitChar(n)] else NatToString(n / 10) + [DigitChar(n % 10)]
  }

  /** `String(i)` for any integer: a minus sign before the magnitude when negative. */
  function IntToString(i: int): (r: string)
    ensures |r| >= 1
    ensures r[0] == '-' <==> i < 0
    ensures i >= 0 ==> r == NatToString(i)
    ensures i < 0 ==> r == "-" + NatToString(-i)
  {
    if i < 0 then "-" + NatToString(-i) else NatToString(i)
  }

  /** Reading a numeral back gives the number it was printed from. */
  lemma {:induction false} NatToStringRoundTrip(n: nat)
    ensures DecimalValue(NatToString(n)) == n
  {
    if n >= 10 {
      var s := NatToString(n);
      assert s[..|s| - 1] == NatToString(n / 10);
      NatToStringRoundTrip(n / 10);
    }
  }


  /** Leading zeros do not change a numeral's value. */
  lemma {:induction false} LeadingZeroValue(s: string)
    requires AllDigits(s)
    ensures AllDigits("0" + s) && DecimalValue("0" + s) == DecimalValue(s)
  {
    var z := "0" + s;
    if s != [] {
      assert z[..|z| - 1] == "0" + s[..|s| - 1];
      LeadingZeroValue(s[..|s| - 1]);
    }
  }

  /** Padding a numeral with zeros on the left keeps its value. */
  lemma {:induction false} ZeroPadValue(s: string, width: nat)
    requires AllDigits(s)
    ensures AllDigits(PadStart(s, width, '0'))
    ensures DecimalValue(PadStart(s, width, '0')) == DecimalValue(s)
    decreases width
  {
    if |s| < width {
      var p := PadStart(s, width, '0');
      assert p == "0" + PadStart(s, width - 1, '0');
      ZeroPadValue(s, width - 1);
      LeadingZeroValue(PadStart(s, width - 1, '0'));
    }
  }

  // ---------- join and split ----------

  /** `parts.join(sep)`. */
  function Join(parts: seq<string>, sep: string): string
  {
    if |parts| == 0 then ""
    else if |parts| == 1 then parts[0]
    else parts[0] + sep + Join(parts[1..], sep)
  }

  lemma JoinCons(p: string, rest: seq<string>, sep: string)
    requires |rest| >= 1
    ensures Join([p] + rest, sep) == p + sep + Join(rest, sep)
  {
    assert ([p] + rest)[1..] == rest;
  }

  /** Appending a part appends the separator and the part. */
  lemma {:induction false} JoinSnoc(parts: seq<string>, p: string, sep: string)
    requires |parts| >= 1
    ensures Join(parts + [p], sep) == Join(parts, sep) + sep + p
  {
    assert (parts + [p])[1..] == parts[1..] + [p];
    if |parts| > 1 {
      JoinSnoc(parts[1..], p, sep);
    }
  }

  /** `s.split(sep)` for a one-character separator: never an empty list. */
  function Split(s: string, sep: char): (r: seq<string>)
    ensures |r| >= 1
    ensures forall i :: 0 <= i < |r| ==> sep !in r[i]
  {
    if s == [] then [[]]
    else
      var rest := Split(s[1..], sep);
      if s[0] == sep then [[]] + rest else [[s[0]] + rest[0]] + rest[1..]
  }

  lemma {:induction false} SplitNoSep(s: string, sep: char)
    requires sep !in s
    ensures Split(s, sep) == [s]
  {
    if s != [] {
      SplitNoSep(s[1..], sep);
      assert [s[0]] + s[1..] == s;
    }
  }

  lemma {:induction false} SplitAfterPiece(a: string, sep: char, b: string)
    requires sep !in a
    ensures Split(a + [sep] + b, sep) == [a] + Split(b, sep)
  {
    if a == [] {
      assert a + [sep] + b == [sep] + b;
      assert ([sep] + b)[1..] == b;
    } else {
      assert (a + [sep] + b)[1..] == a[1..] + [sep] + b;
      SplitAfterPiece(a[1..], sep, b);
      assert [a[0]] + a[1..] == a;
    }
  }

  /** Splitting a join on a separator that no part contains gives the parts back. */
  lemma {:induction false} SplitJoin(parts: seq<string>, sep: char)
    requires |parts| >= 1
    requires forall i :: 0 <= i < |parts| ==> sep !in parts[i]
    ensures Split(Join(parts, [sep]), sep) == parts
  {
    if |parts| == 1 {
      SplitNoSep(parts[0], sep);
    } else {
      SplitJoin(parts[1..], sep);
      SplitAfterPiece(parts[0], sep, Join(parts[1..], [sep]));
      assert [parts[0]] + parts[1..] == parts;
    }
  }

  // ---------- replaceAll ----------

  /** `pat` occurs somewhere in `s`. */
  predicate Occurs(s: string, pat: string)
  {
    exists i :: 0 <= i <= |s| && pat <= s[i..]
  }

  /**
   * `s.replaceAll(pat, rep)` for a non-empty string pattern: scan left to right,
   * replace each occurrence and resume the search after it (matches never overlap).
   */
  function ReplaceAll(s: string, pat: string, rep: string): (r: string)
    requires |pat| > 0
    ensures forall c :: c in r ==> c in s || c in rep
    decreases |s|
  {
    if |s| < |pat| then s
    else if pat <= s then rep + ReplaceAll(s[|pat|..], pat, rep)
    else [s[0]] + ReplaceAll(s[1..], pat, rep)
  }

  /** A string in which the pattern does not occur comes back unchanged. */
  lemma {:induction false} ReplaceAllAbsent(s: string, pat: string, rep: string)
    requires |pat| > 0 && !Occurs(s, pat)
    ensures ReplaceAll(s, pat, rep) == s
    decreases |s|
  {
    if |s| >= |pat| {
      assert s[0..] == s;
      assert !Occurs(s[1..], pat) by {
        forall i | 0 <= i <= |s| - 1
          ensures !(pat <= s[1..][i..])
        {
          assert s[1..][i..] == s[i + 1..];
        }
      }
      ReplaceAllAbsent(s[1..], pat, rep);
    }
  }

  /**
   * The pieces of `s` between the occurrences of `pat` that a left-to-right scan
   * finds, each search resuming after the previous match. For a pattern that
   * overlaps itself (`aa` in `aaa`) the lemmas below do not single out the leftmost
   * match by themselves; none of the script's patterns overlaps itself.
   */
  function Cut(s: string, pat: string): (r: seq<string>)
    requires |pat| > 0
    ensures |r| >= 1
    decreases |s|
  {
    if |s| < |pat| then [s]
    else if pat <= s then [[]] + Cut(s[|pat|..], pat)
    else
      var rest := Cut(s[1..], pat);
      [[s[0]] + rest[0]] + rest[1..]
  }

  /** replaceAll puts `rep` between the pieces, in place of each occurrence found. */
  lemma {:induction false} ReplaceAllIsJoin(s: string, pat: string, rep: string)
    requires |pat| > 0
    ensures ReplaceAll(s, pat, rep) == Join(Cut(s, pat), rep)
    decreases |s|
  {
    if |s| >= |pat| {
      if pat <= s {
        var tail := s[|pat|..];
        ReplaceAllIsJoin(tail, pat, rep);
        assert Cut(s, pat) == [[]] + Cut(tail, pat);
        JoinCons([], Cut(tail, pat), rep);
        assert ReplaceAll(s, pat, rep) == rep + ReplaceAll(tail, pat, rep);
      } else {
        var rest := Cut(s[1..], pat);
        ReplaceAllIsJoin(s[1..], pat, rep);
        assert ReplaceAll(s, pat, rep) == [s[0]] + Join(rest, rep);
        assert Cut(s, pat) == [[s[0]] + rest[0]] + rest[1..];
        if |rest| > 1 {
          JoinJoinFirst(s[0], rest, rep);
        } else {
          assert rest == [rest[0]];
        }
      }
    }
  }

  /** Prefixing the first part of a join prefixes the join. */
  lemma JoinJoinFirst(c: char, parts: seq<string>, sep: string)
    requires |parts| > 1
    ensures Join([[c] + parts[0]] + parts[1..], sep) == [c] + Join(parts, sep)
  {
    JoinCons([c] + parts[0], parts[1..], sep);
    JoinCons(parts[0], parts[1..], sep);
    assert [parts[0]] + parts[1..] == parts;
  }

  /** Putting the pattern back between the pieces restores the input. */
  lemma {:induction false} CutRestores(s: string, pat: string)
    requires |pat| > 0
    ensures Join(Cut(s, pat), pat) == s
    decreases |s|
  {
    if |s| >= |pat| {
      if pat <= s {
        CutRestores(s[|pat|..], pat);
        JoinCons([], Cut(s[|pat|..], pat), pat);
        assert pat + s[|pat|..] == s;
      } else {
        var rest := Cut(s[1..], pat);
        CutRestores(s[1..], pat);
        assert Cut(s, pat) == [[s[0]] + rest[0]] + rest[1..];
        if |rest| > 1 {
          JoinJoinFirst(s[0], rest, pat);
        } else {
          assert rest == [rest[0]];
        }
        assert [s[0]] + s[1..] == s;
      }
    }
  }

  /** The first piece is a prefix of the input. */
  lemma {:induction false} CutFirstPrefix(s: string, pat: string)
    requires |pat| > 0
    ensures Cut(s, pat)[0] <= s
    decreases |s|
  {
    if |s| >= |pat| && !(pat <= s) {
      CutFirstPrefix(s[1..], pat);
      assert s == [s[0]] + s[1..];
    }
  }

  /** No piece contains the pattern: every occurrence was replaced. */
  lemma {:induction false} CutPiecesFree(s: string, pat: string)
    requires |pat| > 0
    ensures forall k :: 0 <= k < |Cut(s, pat)| ==> !Occurs(Cut(s, pat)[k], pat)
    decreases |s|
  {
    var r := Cut(s, pat);
    if |s| < |pat| {
      assert r == [s];
      assert !Occurs(s, pat) by {
        forall i | 0 <= i <= |s| ensures !(pat <= s[i..]) {}
      }
    } else if pat <= s {
      CutPiecesFree(s[|pat|..], pat);
      var none: string := [];
      assert !Occurs(none, pat) by {
        forall i | 0 <= i <= 0 ensures !(pat <= none[i..]) {}
      }
      assert forall k :: 1 <= k < |r| ==> r[k] == Cut(s[|pat|..], pat)[k - 1];
    } else {
      var rest := Cut(s[1..], pat);
      CutPiecesFree(s[1..], pat);
      CutFirstPrefix(s[1..], pat);
      var first := [s[0]] + rest[0];
      assert first <= s;
      assert !Occurs(first, pat) by {
        forall i | 0 <= i <= |first| ensures !(pat <= first[i..]) {
          if i > 0 {
            assert first[i..] == rest[0][i - 1..];
          }
        }
      }
      assert forall k :: 1 <= k < |r| ==> r[k] == rest[k];
    }
  }

  /** With a one-character pattern, replaceAll acts on each character on its own. */
  lemma {:induction false} ReplaceCharAppend(a: string, b: string, c: char, rep: string)
    ensures ReplaceAll(a + b, [c], rep) == ReplaceAll(a, [c], rep) + ReplaceAll(b, [c], rep)
  {
    if a == [] {
      assert a + b == b;
    } else {
      assert (a + b)[1..] == a[1..] + b;
      ReplaceCharAppend(a[1..], b, c, rep);
    }
  }

  /** replaceAll of a one-character pattern on a one-character string. */
  lemma ReplaceCharSingle(x: char, c: char, rep: string)
    ensures ReplaceAll([x], [c], rep) == if x == c then rep else [x]
  {
    assert [c] <= [x] <==> x == c;
    assert [x][1..] == [];
    assert ReplaceAll([], [c], rep) == [];
  }

  /** A one-character pattern that is absent leaves the string as it is. */
  lemma {:induction false} ReplaceCharAbsent(s: string, c: char, rep: string)
    requires c !in s
    ensures ReplaceAll(s, [c], rep) == s
  {
    if s != [] {
      assert s[0] in s;
      assert s[0] != c;
      ReplaceCharAbsent(s[1..], c, rep);
      assert [s[0]] + s[1..] == s;
    }
  }
}
