/**
 * `writeScreen` (script.js): each template line has its four markup tokens expanded,
 * the lines are joined with newlines and the result replaces the screen's markup.
 */
module Screen {
  import opened JsString
  import opened Dom

  const OkMarkup := "<span class=\"ok\">OK</span>"
  const WarnMarkup := "<span class=\"warn\">LOCKED</span>"
  const MutedOpen := "<span class=\"muted\">"
  const MutedClose := "</span>"

  /** One template line with `[ok]`, `[warn]`, `[muted]` and `[/muted]` expanded, in that order. */
  function MarkupLine(line: string): (r: string)
    ensures '\n' !in line ==> '\n' !in r
  {
    ReplaceAll(
      ReplaceAll(
        ReplaceAll(
          ReplaceAll(line, "[ok]", OkMarkup),
          "[warn]", WarnMarkup),
        "[muted]", MutedOpen),
      "[/muted]", MutedClose)
  }

  /** Every template line expanded, in order. */
  function MarkupLines(lines: seq<string>): seq<string>
  {
    seq(|lines|, i requires 0 <= i < |lines| => MarkupLine(lines[i]))
  }

  /** The markup `writeScreen(lines)` assigns to the screen. */
  function ScreenHtml(lines: seq<string>): string
  {
    Join(MarkupLines(lines), "\n")
  }

  /** A line that holds none of the four tokens is written as it is. */
  lemma PlainLineUnchanged(line: string)
    requires !Occurs(line, "[ok]") && !Occurs(line, "[warn]")
    requires !Occurs(line, "[muted]") && !Occurs(line, "[/muted]")
    ensures MarkupLine(line) == line
  {
    ReplaceAllAbsent(line, "[ok]", OkMarkup);
    ReplaceAllAbsent(line, "[warn]", WarnMarkup);
    ReplaceAllAbsent(line, "[muted]", MutedOpen);
    ReplaceAllAbsent(line, "[/muted]", MutedClose);
  }

  /**
   * The screen shows one line per template line, each the expansion of its own line:
   * splitting the written markup at its newlines gives the expanded lines back.
   */
  lemma ScreenLines(lines: seq<string>)
    requires |lines| >= 1
    requires forall i :: 0 <= i < |lines| ==> '\n' !in lines[i]
    ensures Split(ScreenHtml(lines), '\n') == MarkupLines(lines)
  {
    SplitJoin(MarkupLines(lines), '\n');
  }

  /**
   * One call of `writeScreen(lines)`: without a screen element nothing is written;
   * otherwise the screen's markup is replaced by the expanded, joined lines.
   */
  method WriteScreen(screen: Element?, lines: seq<string>)
    modifies screen
    ensures screen != null ==> screen.content == ScreenHtml(lines) && screen.items == old(screen.items)
  {
    if screen == null {
      return;
    }
    screen.content := Join(MarkupLines(lines), "\n");
  }
}
