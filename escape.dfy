/**
 * `escapeHtml` (script.js): the five characters that carry meaning in HTML text and
 * attribute values are replaced by entities, the ampersand first.
 */
module Escape {
  import opened JsString

  /** `escapeHtml(str)`: five replaceAll passes, in the order the script applies them. */
  function EscapeHtml(s: string): string
  {
    ReplaceAll(
      ReplaceAll(
        ReplaceAll(
          ReplaceAll(
            ReplaceAll(s, "&", "&amp;"),
            "<", "&lt;"),
          ">", "&gt;"),
        "\"", "&quot;"),
      "'", "&#039;")
  }

  /** What one character of the input becomes in the output. */
  function Entity(c: char): (r: string)
    ensures |r| >= 1
    ensures r[0] == '&' <==> IsSpecial(c)
    ensures !IsSpecial(c) ==> r == [c]
  {
    match c
    case '&' => "&amp;"
    case '<' => "&lt;"
    case '>' => "&gt;"
    case '"' => "&quot;"
    case '\'' => "&#039;"
    case _ => [c]
  }

  predicate IsSpecial(c: char)
  {
    c == '&' || c == '<' || c == '>' || c == '"' || c == '\''
  }

  /** Reference definition: every character mapped to its entity independently. */
  function EscapeEach(s: string): (r: string)
    ensures |r| >= |s|
  {
    if s == [] then [] else Entity(s[0]) + EscapeEach(s[1..])
  }

  /** No character that opens or closes a tag or an attribute value. */
  predicate NoMarkup(t: string)
  {
    forall i :: 0 <= i < |t| ==> t[i] != '<' && t[i] != '>' && t[i] != '"' && t[i] != '\''
  }

  predicate BeginsEntity(u: string)
  {
    "&amp;" <= u || "&lt;" <= u || "&gt;" <= u || "&quot;" <= u || "&#039;" <= u
  }

  /** Every ampersand of `t` is the first character of one of the five entities. */
  predicate AmpersandsBeginEntities(t: string)
  {
    forall i :: 0 <= i < |t| && t[i] == '&' ==> BeginsEntity(t[i..])
  }

  /** Decoding of the five entities; any other text stands for itself. */
  function Unescape(t: string): string
    decreases |t|
  {
    if t == [] then []
    else if "&amp;" <= t then "&" + Unescape(t[5..])
    else if "&lt;" <= t then "<" + Unescape(t[4..])
    else if "&gt;" <= t then ">" + Unescape(t[4..])
    else if "&quot;" <= t then "\"" + Unescape(t[6..])
    else if "&#039;" <= t then "'" + Unescape(t[6..])
    else [t[0]] + Unescape(t[1..])
  }

  // ---------- escapeHtml is a per-character map ----------

  lemma EscapeHtmlAppend(a: string, b: string)
    ensures EscapeHtml(a + b) == EscapeHtml(a) + EscapeHtml(b)
  {
    var a1, b1 := ReplaceAll(a, "&", "&amp;"), ReplaceAll(b, "&", "&amp;");
    ReplaceCharAppend(a, b, '&', "&amp;");
    var a2, b2 := ReplaceAll(a1, "<", "&lt;"), ReplaceAll(b1, "<", "&lt;");
    ReplaceCharAppend(a1, b1, '<', "&lt;");
    var a3, b3 := ReplaceAll(a2, ">", "&gt;"), ReplaceAll(b2, ">", "&gt;");
    ReplaceCharAppend(a2, b2, '>', "&gt;");
    var a4, b4 := ReplaceAll(a3, "\"", "&quot;"), ReplaceAll(b3, "\"", "&quot;");
    ReplaceCharAppend(a3, b3, '"', "&quot;");
    ReplaceCharAppend(a4, b4, '\'', "&#039;");
  }

  /**
   * One character goes through the five passes: the pass for its own character
   * turns it into its entity, and no later pass finds anything to replace in that
   * entity (the ampersand pass already ran).
   */
  lemma EscapeHtmlChar(x: char)
    ensures EscapeHtml([x]) == Entity(x)
  {
    match x
    case '&' => EscapeFromPass(x, "&amp;", 1);
    case '<' => EscapeFromPass(x, "&lt;", 2);
    case '>' => EscapeFromPass(x, "&gt;", 3);
    case '"' => EscapeFromPass(x, "&quot;", 4);
    case '\'' => EscapeFromPass(x, "&#039;", 5);
    case _ => EscapeFromPass(x, [x], 6);
  }

  /**
   * A character that the pass numbered `pass` (1 to 5, or 6 for none) turns into `e`:
   * the passes before it keep it, and the passes after it keep `e`.
   */
  lemma EscapeFromPass(x: char, e: string, pass: nat)
    requires 1 <= pass <= 6
    requires pass == 1 <==> x == '&'
    requires pass == 2 <==> x == '<'
    requires pass == 3 <==> x == '>'
    requires pass == 4 <==> x == '"'
    requires pass == 5 <==> x == '\''
    requires pass == 6 ==> e == [x]
    requires pass < 6 ==> e == Entity(x) && '<' !in e && '>' !in e && '"' !in e && '\'' !in e
    ensures EscapeHtml([x]) == e
  {
    var r1 := ReplaceAll([x], "&", "&amp;");
    ReplaceCharSingle(x, '&', "&amp;");
    var r2 := ReplaceAll(r1, "<", "&lt;");
    if pass < 2 { ReplaceCharAbsent(r1, '<', "&lt;"); } else { ReplaceCharSingle(x, '<', "&lt;"); }
    var r3 := ReplaceAll(r2, ">", "&gt;");
    if pass < 3 { ReplaceCharAbsent(r2, '>', "&gt;"); } else { ReplaceCharSingle(x, '>', "&gt;"); }
    var r4 := ReplaceAll(r3, "\"", "&quot;");
    if pass < 4 { ReplaceCharAbsent(r3, '"', "&quot;"); } else { ReplaceCharSingle(x, '"', "&quot;"); }
    var r5 := ReplaceAll(r4, "'", "&#039;");
    if pass < 5 { ReplaceCharAbsent(r4, '\'', "&#039;"); } else { ReplaceCharSingle(x, '\'', "&#039;"); }
  }

  /** The replaceAll chain equals the per-character reference definition. */
  lemma {:induction false} EscapeHtmlIsPerCharacter(s: string)
    ensures EscapeHtml(s) == EscapeEach(s)
  {
    if s == [] {
      ReplaceCharAbsent(s, '&', "&amp;");
      ReplaceCharAbsent(s, '<', "&lt;");
      ReplaceCharAbsent(s, '>', "&gt;");
      ReplaceCharAbsent(s, '"', "&quot;");
      ReplaceCharAbsent(s, '\'', "&#039;");
    } else {
      assert s == [s[0]] + s[1..];
      EscapeHtmlAppend([s[0]], s[1..]);
      EscapeHtmlChar(s[0]);
      EscapeHtmlIsPerCharacter(s[1..]);
    }
  }

  /** A character that is not one of the five passes through escapeHtml unchanged. */
  lemma {:induction false} EscapeHtmlPlain(s: string)
    requires forall i :: 0 <= i < |s| ==> !IsSpecial(s[i])
    ensures EscapeHtml(s) == s
  {
    EscapeHtmlIsPerCharacter(s);
    EscapeEachPlain(s);
  }

  lemma {:induction false} EscapeEachPlain(s: string)
    requires forall i :: 0 <= i < |s| ==> !IsSpecial(s[i])
    ensures EscapeEach(s) == s
  {
    if s != [] {
      EscapeEachPlain(s[1..]);
      assert [s[0]] + s[1..] == s;
    }
  }

  // ---------- safety of the output ----------

  lemma {:induction false} EscapeEachNoMarkup(s: string)
    ensures NoMarkup(EscapeEach(s))
  {
    if s != [] {
      EscapeEachNoMarkup(s[1..]);
    }
  }

  lemma {:induction false} EscapeEachAmpersands(s: string)
    ensures AmpersandsBeginEntities(EscapeEach(s))
  {
    if s != [] {
      var e, rest := Entity(s[0]), EscapeEach(s[1..]);
      EscapeEachAmpersands(s[1..]);
      var t := e + rest;
      forall i | 0 <= i < |t| && t[i] == '&'
        ensures BeginsEntity(t[i..])
      {
        if i < |e| {
          assert i == 0;
          assert t[i..] == e + rest;
        } else {
          assert t[i..] == rest[i - |e|..];
        }
      }
    }
  }

  /**
   * The output of escapeHtml contains no `<`, `>`, `"` or `'`, and each `&` in it
   * starts one of the entities `&amp;`, `&lt;`, `&gt;`, `&quot;`, `&#039;`.
   */
  lemma EscapeHtmlSafe(s: string)
    ensures NoMarkup(EscapeHtml(s))
    ensures AmpersandsBeginEntities(EscapeHtml(s))
  {
    EscapeHtmlIsPerCharacter(s);
    EscapeEachNoMarkup(s);
    EscapeEachAmpersands(s);
  }

  // ---------- round trip ----------

  lemma UnescapeEntity(c: char, rest: string)
    ensures Unescape(Entity(c) + rest) == [c] + Unescape(rest)
  {
    var t := Entity(c) + rest;
    match c
    case '&' => assert "&amp;" <= t && t[5..] == rest;
    case '<' =>
      assert t[1] == 'l';
      assert !("&amp;" <= t) && "&lt;" <= t && t[4..] == rest;
    case '>' =>
      assert t[1] == 'g';
      assert !("&amp;" <= t) && !("&lt;" <= t) && "&gt;" <= t && t[4..] == rest;
    case '"' =>
      assert t[1] == 'q';
      assert !("&amp;" <= t) && !("&lt;" <= t) && !("&gt;" <= t);
      assert "&quot;" <= t && t[6..] == rest;
    case '\'' =>
      assert t[1] == '#';
      assert !("&amp;" <= t) && !("&lt;" <= t) && !("&gt;" <= t) && !("&quot;" <= t);
      assert "&#039;" <= t && t[6..] == rest;
    case _ =>
      assert t[0] == c && t[1..] == rest;
  }

  /** Decoding the five entities in escapeHtml's output returns the original string. */
  lemma {:induction false} EscapeHtmlRoundTrip(s: string)
    ensures Unescape(EscapeHtml(s)) == s
  {
    EscapeHtmlIsPerCharacter(s);
    EscapeEachRoundTrip(s);
  }

  lemma {:induction false} EscapeEachRoundTrip(s: string)
    ensures Unescape(EscapeEach(s)) == s
  {
    if s != [] {
      UnescapeEntity(s[0], EscapeEach(s[1..]));
      EscapeEachRoundTrip(s[1..]);
      assert [s[0]] + s[1..] == s;
    }
  }
}
