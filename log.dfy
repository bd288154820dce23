/**
 * `addLog` (script.js): builds one `li` for the log list from a stamp, a type tag,
 * a message and a status, and appends it. The three caller-supplied texts are
 * escaped; the status also picks the CSS class of its span.
 */
module Log {
  import opened Wrappers
  import opened JsString
  import opened Escape
  import opened Clock
  import opened Dom

  /** The CSS class of the status span: `OK` is ok, `LOCKED` is warn, anything else muted. */
  function StatusClass(status: string): (cls: string)
    ensures cls == "ok" <==> status == "OK"
    ensures cls == "warn" <==> status == "LOCKED"
    ensures cls == "muted" <==> status != "OK" && status != "LOCKED"
  {
    if status == "OK" then "ok" else if status == "LOCKED" then "warn" else "muted"
  }

  // The fixed text of the item's template, cut at each `<` and, in the status
  // span, at each `"`.
  const Lead := "\n      "
  const StampOpen := "span class=\"ts\">"
  const SpanClose := "/span>\n      "
  const KindOpen := "span class=\"muted\">["
  const Indent := "\n      "
  const ClassOpen := "span class="
  const Tail := "/span>\n    "

  /** The `innerHTML` of the new `li`. */
  function ItemHtml(stamp: string, kind: string, msg: string, status: string): string
  {
    Template(stamp, EscapeHtml(kind), EscapeHtml(msg), StatusClass(status), EscapeHtml(status))
  }

  /**
   * The template literal's layout around the already escaped texts, spelled with
   * the pieces above:
   *   "\n      <span class=\"ts\">" stamp "</span>\n      <span class=\"muted\">[" k
   *   "]</span>\n      " m "\n      <span class=\"" cls "\">" s "</span>\n    "
   */
  function Template(stamp: string, k: string, m: string, cls: string, s: string): string
  {
    Lead + "<" + StampOpen + stamp + "<" + SpanClose + "<" + KindOpen + k + "]"
    + "<" + SpanClose + m + Indent
    + "<" + ClassOpen + "\"" + cls + "\">" + s
    + "<" + Tail
  }

  /** The four values an item shows. */
  datatype Entry = Entry(stamp: string, kind: string, msg: string, status: string)

  /**
   * Reads the values back out of an item's markup: the stamp and the decoded type,
   * message and status, provided the markup has the template's shape and its class
   * agrees with its status.
   */
  function ParseItem(html: string): Option<Entry>
  {
    var parts := Split(html, '<');
    if |parts| != 7 || parts[0] != Lead || parts[2] != SpanClose || parts[6] != Tail then None
    else if !(StampOpen <= parts[1]) then None
    else if !(KindOpen <= parts[3]) || |parts[3]| <= |KindOpen| || parts[3][|parts[3]| - 1] != ']' then None
    else if !(SpanClose <= parts[4]) || |parts[4]| < |SpanClose| + |Indent|
      || parts[4][|parts[4]| - |Indent|..] != Indent then None
    else
      var attr := Split(parts[5], '"');
      if |attr| != 3 || attr[0] != ClassOpen || attr[2] == [] || attr[2][0] != '>' then None
      else
        var stamp := parts[1][|StampOpen|..];
        var kind := Unescape(parts[3][|KindOpen|..|parts[3]| - 1]);
        var msg := Unescape(parts[4][|SpanClose|..|parts[4]| - |Indent|]);
        var status := Unescape(attr[2][1..]);
        if attr[1] != StatusClass(status) then None
        else Some(Entry(stamp, kind, msg, status))
  }

  lemma NoMarkupExcludes(t: string)
    requires NoMarkup(t)
    ensures '<' !in t && '"' !in t
  {
  }

  /** The template cut at its `<` characters, around the escaped texts `k`, `m`, `s`. */
  function Pieces(stamp: string, k: string, m: string, cls: string, s: string): seq<string>
  {
    [Lead, StampOpen + stamp, SpanClose, KindOpen + k + "]",
     SpanClose + m + Indent, ClassOpen + "\"" + cls + "\">" + s, Tail]
  }

  lemma JoinSeven(a: string, b: string, c: string, d: string, e: string, f: string, g: string, sep: string)
    ensures Join([a, b, c, d, e, f, g], sep) == a + sep + b + sep + c + sep + d + sep + e + sep + f + sep + g
  {
    JoinSnoc([a], b, sep);
    assert [a] + [b] == [a, b];
    JoinSnoc([a, b], c, sep);
    assert [a, b] + [c] == [a, b, c];
    JoinSnoc([a, b, c], d, sep);
    assert [a, b, c] + [d] == [a, b, c, d];
    JoinSnoc([a, b, c, d], e, sep);
    assert [a, b, c, d] + [e] == [a, b, c, d, e];
    JoinSnoc([a, b, c, d, e], f, sep);
    assert [a, b, c, d, e] + [f] == [a, b, c, d, e, f];
    JoinSnoc([a, b, c, d, e, f], g, sep);
    assert [a, b, c, d, e, f] + [g] == [a, b, c, d, e, f, g];
  }

  /** Regrouping of the template's concatenation, stated over arbitrary strings. */
  lemma Regroup(l: string, a: string, b: string, c: string, d: string, e: string, f: string,
                g: string, h: string, t: string, lt: string,
                stamp: string, k: string, m: string, cls: string, s: string)
    ensures l + lt + a + stamp + lt + b + lt + c + k + d + lt + b + m + e + lt + f + g + cls + h + s + lt + t
         == l + lt + (a + stamp) + lt + b + lt + (c + k + d) + lt + (b + m + e) + lt + (f + g + cls + h + s) + lt + t
  {
    var x1 := l + lt + (a + stamp);
    assert l + lt + a + stamp == x1;
    var x2 := x1 + lt + b + lt + (c + k + d);
    assert x1 + lt + b + lt + c + k + d == x2;
    var x3 := x2 + lt + (b + m + e);
    assert x2 + lt + b + m + e == x3;
    var x4 := x3 + lt + (f + g + cls + h + s);
    assert x3 + lt + f + g + cls + h + s == x4;
  }

  lemma TemplateIsJoin(stamp: string, k: string, m: string, cls: string, s: string)
    ensures Template(stamp, k, m, cls, s) == Join(Pieces(stamp, k, m, cls, s), "<")
  {
    JoinSeven(Lead, StampOpen + stamp, SpanClose, KindOpen + k + "]",
              SpanClose + m + Indent, ClassOpen + "\"" + cls + "\">" + s, Tail, "<");
    Regroup(Lead, StampOpen, SpanClose, KindOpen, "]", Indent, ClassOpen, "\"", "\">", Tail, "<",
            stamp, k, m, cls, s);
  }

  lemma SplitItem(stamp: string, kind: string, msg: string, status: string)
    requires '<' !in stamp
    ensures Split(ItemHtml(stamp, kind, msg, status), '<')
      == Pieces(stamp, EscapeHtml(kind), EscapeHtml(msg), StatusClass(status), EscapeHtml(status))
  {
    var k, m, s := EscapeHtml(kind), EscapeHtml(msg), EscapeHtml(status);
    EscapeHtmlSafe(kind);
    EscapeHtmlSafe(msg);
    EscapeHtmlSafe(status);
    NoMarkupExcludes(k);
    NoMarkupExcludes(m);
    NoMarkupExcludes(s);
    TemplateIsJoin(stamp, k, m, StatusClass(status), s);
    PiecesHaveNoTag(stamp, k, m, StatusClass(status), s);
    SplitJoin(Pieces(stamp, k, m, StatusClass(status), s), '<');
  }

  lemma PiecesHaveNoTag(stamp: string, k: string, m: string, cls: string, s: string)
    requires '<' !in stamp && '<' !in k && '<' !in m && '<' !in s
    requires cls == "ok" || cls == "warn" || cls == "muted"
    ensures forall i :: 0 <= i < 7 ==> '<' !in Pieces(stamp, k, m, cls, s)[i]
  {
    var ps := Pieces(stamp, k, m, cls, s);
    assert '<' !in ps[1] && '<' !in ps[3] && '<' !in ps[4] && '<' !in ps[5];
  }

  lemma RegroupSpan(o: string, q: string, gt: string, cls: string, s: string)
    ensures o + q + cls + (q + gt) + s == o + q + (cls + q + (gt + s))
  {
  }

  lemma SplitStatusSpan(cls: string, s: string)
    requires '"' !in cls && '"' !in s
    ensures Split(ClassOpen + "\"" + cls + "\">" + s, '"') == [ClassOpen, cls, ">" + s]
  {
    var attr := [ClassOpen, cls, ">" + s];
    JoinCons(cls, [">" + s], "\"");
    assert [cls, ">" + s] == [cls] + [">" + s];
    JoinCons(ClassOpen, [cls, ">" + s], "\"");
    assert attr == [ClassOpen] + [cls, ">" + s];
    assert "\">" == "\"" + ">";
    RegroupSpan(ClassOpen, "\"", ">", cls, s);
    SplitJoin(attr, '"');
  }

  /**
   * Reading the fields out of markup whose `<`-pieces and status-span pieces have
   * the template's shape, stated over arbitrary texts.
   */
  lemma ParsePieces(html: string, stamp: string, k: string, m: string, cls: string, s: string)
    requires Split(html, '<') == Pieces(stamp, k, m, cls, s)
    requires Split(ClassOpen + "\"" + cls + "\">" + s, '"') == [ClassOpen, cls, ">" + s]
    requires cls == StatusClass(Unescape(s))
    ensures ParseItem(html) == Some(Entry(stamp, Unescape(k), Unescape(m), Unescape(s)))
  {
    var parts := Pieces(stamp, k, m, cls, s);
    var p3, p4 := parts[3], parts[4];
    assert p3[|KindOpen|..|p3| - 1] == k;
    assert p4[|SpanClose|..|p4| - |Indent|] == m;
    assert p4[|p4| - |Indent|..] == Indent;
    assert (">" + s)[1..] == s;
    assert parts[1][|StampOpen|..] == stamp;
  }

  /**
   * The markup of an item gives back the stamp, the type, the message and the status
   * it was built from: the escaped texts cannot add, close or re-open a tag or an
   * attribute, whatever characters they hold.
   */
  lemma ItemRoundTrip(stamp: string, kind: string, msg: string, status: string)
    requires '<' !in stamp
    ensures ParseItem(ItemHtml(stamp, kind, msg, status)) == Some(Entry(stamp, kind, msg, status))
  {
    var k, m, s := EscapeHtml(kind), EscapeHtml(msg), EscapeHtml(status);
    var cls := StatusClass(status);
    SplitItem(stamp, kind, msg, status);
    EscapeHtmlSafe(status);
    NoMarkupExcludes(s);
    SplitStatusSpan(cls, s);
    EscapeHtmlRoundTrip(kind);
    EscapeHtmlRoundTrip(msg);
    EscapeHtmlRoundTrip(status);
    ParsePieces(ItemHtml(stamp, kind, msg, status), stamp, k, m, cls, s);
  }

  /**
   * One call of `addLog(type, msg, status = "OK")`. With no log element nothing
   * happens, not even the stamp counter moves. Otherwise the counter advances once
   * and exactly one item, stamped with the new counter value, is appended.
   */
  method AddLog(log: Element?, clock: Counter, kind: string, msg: string, status: string := "OK")
    modifies log, clock
    ensures log == null ==> clock.t == old(clock.t)
    ensures log != null ==> clock.t == old(clock.t) + 1
    ensures log != null ==>
      log.items == old(log.items) + [ItemHtml(Stamp(clock.t), kind, msg, status)]
      && log.content == old(log.content)
    ensures log != null ==>
      ParseItem(log.items[|log.items| - 1]) == Some(Entry(Stamp(clock.t), kind, msg, status))
  {
    if log == null {
      return;
    }
    var stamp := clock.Next();
    var item := ItemHtml(stamp, kind, msg, status);
    log.items := log.items + [item];
    StampHasNoMarkup(clock.t);
    ItemRoundTrip(stamp, kind, msg, status);
  }
}
