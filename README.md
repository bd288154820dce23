# Hacker terminal helpers, modelled in Dafny

The page script `script.js` drives a cosmetic "hacker terminal": it types a
command into a fake prompt, appends stamped log lines, writes progress bars to a
screen pane and fills a profile card from a static record. Almost all of it is
DOM and timer plumbing. This project models the small, self-contained helpers
underneath that plumbing, with page elements reduced to plain values:

- `escapeHtml`: the five-pass `replaceAll` chain (module `Escape`);
- `nowTS`: the closure counter behind the log stamps, as a class with one field
  (module `Clock`);
- `addLog`: the status-to-class choice, the item markup with its escaped texts,
  and the append to the log list (module `Log`);
- `writeScreen`: the token expansion of each line and the newline join (module `Screen`);
- `progressBar`: the 22-cell text bar and the padded percentage (module `Progress`);
- `renderProfile`: the `||` defaulting of the six card slots (module `Profile`);
- `typeLine`: the character-by-character reveal loop, with `Math.random` as an
  oracle (module `Typing`).

The JavaScript built-ins these rely on (`replaceAll`, `repeat`, `padStart`,
`join`, integer `toString`) are modelled over `seq<char>` in module `JsString`,
together with a one-character `split` that the model uses to read markup back.
Page elements are objects of class `Dom.Element` with a `content` string (its
`textContent` or `innerHTML`) and an `items` sequence (the markup of appended
`li` children); a missing element is `null`.

What the code does, stated plainly:

- The line writer replaces exactly four tokens, `[ok]`, `[warn]`, `[muted]` and
  `[/muted]`; `[ok]` and `[warn]` become spans holding the words `OK` and
  `LOCKED`. No other highlighting is applied.
- `progressBar` renders the fixed percentage it is given; nothing animates it.
- The `setInterval` heartbeat never stops.
- The profile renderer uses `||`, so an empty string, and an age of 0, show the
  placeholder `—` just as an absent property does.

`progressBar` is modelled for every integer, not only 0 to 100: `repeat` throws
when its count is negative, and `Progress.ProgressBar` returns `None` exactly
then, which is for percentages below -2 or above 102.

## Model

| member | source | states |
|---|---|---|
| `Escape.EscapeHtmlIsPerCharacter` | script.js:25-32 | the five `replaceAll` passes, ampersand first, equal an independent per-character map: `&`, `<`, `>`, `"`, `'` become their entity, every other character is kept |
| `Escape.EscapeHtmlChar` | script.js:27-31 | a single character comes out as exactly one entity: no later pass re-escapes the `&` an earlier pass introduced |
| `Escape.EscapeEachNoMarkup` | script.js:25-32 | escaping each character leaves no `<`, `>`, `"` or `'` |
| `Escape.EscapeEachAmpersands` | script.js:25-32 | escaping each character leaves every `&` at the start of one of the five entities |
| `Escape.EscapeHtmlSafe` | script.js:25-32 | the output has no `<`, `>`, `"` or `'`, and every `&` in it starts one of `&amp;`, `&lt;`, `&gt;`, `&quot;`, `&#039;` |
| `Escape.EscapeHtmlRoundTrip` | script.js:25-32 | decoding the five entities in the output returns the input, for every string, so nothing is escaped twice |
| `Escape.EscapeHtmlPlain` | script.js:25-32 | a string without any of the five characters is returned unchanged |
| `Escape.Entity` | script.js:27-31 | a character's replacement starts with `&` exactly when it is one of the five; any other character stands for itself |
| `Escape.EscapeHtml` | script.js:25-32 | the five `replaceAll` passes in the script's order; no contract of its own, characterised by `Escape.EscapeHtmlIsPerCharacter`, `Escape.EscapeHtmlSafe` and `Escape.EscapeHtmlRoundTrip` |
| `JsString.ReplaceAll` | script.js:27-31 | every character of the result comes from the input or from the replacement |
| `JsString.ReplaceAllIsJoin` | script.js:27-31 | the result is the pieces of the input between the occurrences a left-to-right scan finds (resuming after each match), joined with the replacement |
| `JsString.CutRestores` | script.js:27-31 | joining those pieces with the pattern gives the input back: only the occurrences are replaced |
| `JsString.CutPiecesFree` | script.js:27-31 | no piece contains the pattern: every occurrence is replaced |
| `JsString.ReplaceAllAbsent` | script.js:95-99 | a string in which the pattern does not occur is returned unchanged |
| `JsString.ReplaceCharAppend` | script.js:27-31 | with a one-character pattern, `replaceAll` of a concatenation is the concatenation of the `replaceAll`s |
| `JsString.Repeat` | script.js:111 | `repeat(n)` gives n copies of the character |
| `JsString.PadStart` | script.js:20 | `padStart(w, c)` keeps the string as its suffix and fills up to width w with c on the left; a string already w long is unchanged |
| `JsString.NatToString` | script.js:20 | the decimal numeral of a natural number is non-empty, all digits, without a leading zero, and one digit long exactly below 10 |
| `JsString.NatToStringRoundTrip` | script.js:20 | reading the numeral back gives the number |
| `JsString.IntToString` | script.js:111 | `toString` of an integer is its decimal numeral, preceded by `-` (and then the magnitude's numeral) exactly when it is negative |
| `JsString.ZeroPadValue` | script.js:20 | padding a numeral with zeros on the left keeps its value |
| `JsString.Join` | script.js:101 | `join`; no contract of its own, characterised by `JsString.SplitJoin` and `JsString.ReplaceAllIsJoin` |
| `JsString.SplitJoin` | script.js:101 | splitting a join at a separator no part contains returns the parts |
| `Clock.Counter.constructor` | script.js:17 | the counter starts at 6 |
| `Clock.Counter.Next` | script.js:18-22 | each call adds exactly 1 to the counter, then returns the stamp of the new value |
| `Clock.Stamp` | script.js:20-21 | the stamp text of a counter value; no contract of its own, characterised by `Clock.StampFields` and `Clock.StampIncreasing` |
| `Clock.StampFields` | script.js:20-21 | a stamp is `00:00:` and at least two digits whose value is the counter (zero-padded below 10, the numeral from 10 on); the seconds never carry into the minutes |
| `Clock.StampIncreasing` | script.js:19-21 | a later counter value gives a different stamp with a strictly larger seconds value |
| `Clock.StampHasNoMarkup` | script.js:20-21 | a stamp holds only digits and colons |
| `Clock.BootStamps` | script.js:16-23 | a fresh counter hands out `00:00:07` first and `00:00:08` second |
| `Log.StatusClass` | script.js:39-40 | the class is `ok` exactly for status `OK`, `warn` exactly for `LOCKED`, `muted` exactly for everything else |
| `Log.ItemHtml` | script.js:42-47 | the item markup, through `Log.Template`; no contract of its own, characterised by `Log.ItemRoundTrip` |
| `Log.ItemRoundTrip` | script.js:42-47 | the item markup can be parsed back into its stamp and its type, message and status, whatever characters those hold, and its class agrees with its status: the escaped texts cannot open or close a tag or an attribute |
| `Log.AddLog` | script.js:34-48 | with no log element nothing changes and the stamp counter does not move; otherwise the counter advances once and exactly one item, stamped with the new value, is appended to the end of the list, the status defaulting to `OK` |
| `Screen.MarkupLine` | script.js:95-99 | expanding the four tokens introduces no newline into a line that had none |
| `Screen.ScreenHtml` | script.js:92-101 | the markup written to the screen; no contract of its own, characterised by `Screen.ScreenLines` |
| `Screen.PlainLineUnchanged` | script.js:95-99 | a line holding none of `[ok]`, `[warn]`, `[muted]`, `[/muted]` is written as it is |
| `Screen.ScreenLines` | script.js:92-101 | splitting the written markup at its newlines returns the expanded lines, one per template line |
| `Screen.WriteScreen` | script.js:86-104 | with no screen element nothing is written; otherwise the screen's markup becomes the expanded lines joined with newlines |
| `Progress.FilledRounds` | script.js:109 | the integer cell count `(pct*22 + 50) div 100` equals `Math.round` of `(pct/100)*22` over exact reals, halves rounding up |
| `Progress.Filled` | script.js:109 | the filled cell count; no contract of its own, characterised by `Progress.FilledRounds`, `Progress.FilledDrawable` and `Progress.FilledMonotone` |
| `Progress.ProgressBar` | script.js:107-112 | the bar is drawn exactly for percentages -2 to 102; outside that `repeat` gets a negative count and throws |
| `Progress.FilledDrawable` | script.js:109-111 | both `repeat` counts are non-negative exactly for percentages -2 to 102 |
| `Progress.ProgressBarLayout` | script.js:107-111 | a drawn bar is 29 characters: `[`, the 22 cells for the rounded share, `] `, the three-column numeral, `%` |
| `Progress.Cells` | script.js:111 | the cells are `filled` times `█` followed by `empty` times `░`: cell i is full exactly when i is below the filled count |
| `Progress.Bar` | script.js:111 | the template literal of the bar; no contract of its own, characterised by `Progress.ProgressBarLayout` |
| `Progress.Numeral` | script.js:111 | the padded percentage, always three columns; characterised by `Progress.NumeralIsPadded` |
| `Progress.NumeralIsPadded` | script.js:111 | the three-column numeral of a drawn bar is `pct.toString()` padded on the left with spaces to width 3 |
| `Progress.FilledInRange` | script.js:109-111 | for 0 to 100 the bar is drawn, with 0 to 22 filled cells |
| `Progress.FilledMonotone` | script.js:109 | a larger percentage never fills fewer cells |
| `Progress.ProgressBarMonotone` | script.js:109-111 | every cell filled at one percentage is filled at any larger one |
| `Progress.ProgressBarEnds` | script.js:107-112 | at 0 the bar is all `░` with `  0%`; at 100 it is all `█` with `100%` |
| `Profile.OrPlaceholder` | script.js:137-139 | `v \|\| "—"` shows the placeholder exactly for an absent or empty value (or the glyph itself) and the value otherwise; never the empty string |
| `Profile.AgeText` | script.js:140 | the age shows the placeholder exactly when absent or 0, and the number's numeral otherwise |
| `Profile.SourcesText` | script.js:141 | the sources slot; no contract of its own, characterised by `Profile.SourcesShown` |
| `Profile.SourcesShown` | script.js:141 | the sources slot shows the placeholder exactly for an absent list, an empty list or a single empty (or glyph) name, and whenever it does not, it shows the names joined with ` + ` |
| `Profile.Render` | script.js:137-142 | no slot of the card is ever blank, and the location is always a non-empty text, ` / `, and a non-empty text |
| `Profile.CardShows` | script.js:128-142 | every slot against the record: a string slot shows its value when present and `—` when absent, empty or the glyph; the location defaults city and area separately; the age shows its numeral unless absent or 0; the sources show the joined names; an absent record renders as an empty one |
| `Profile.NameSlot` | script.js:137 | the name shows `—` exactly when the name is absent, empty or the glyph itself, and a present name as it is |
| `Profile.PhoneSlot` | script.js:138 | the phone shows `—` exactly when the phone is absent, empty or the glyph itself, and a present phone as it is |
| `Profile.LocationSlot` | script.js:139 | a present city starts the location and a present area ends it; a missing city leaves the location starting `— / ` and a missing area leaves it ending ` / —` |
| `Profile.AgeSlot` | script.js:140 | the age shows `—` exactly when absent or 0, and otherwise the number's numeral |
| `Profile.SourcesSlot` | script.js:141 | the sources show `—` exactly when there is no list, an empty list or a single empty (or glyph) name, and otherwise the names joined with ` + ` |
| `Profile.ConfidenceSlot` | script.js:142 | the confidence shows `—` exactly when it is absent, empty or the glyph itself, and a present value as it is |
| `Profile.NameOnlyCard` | script.js:137-142 | a record with only the name `Jane Doe` shows the name and the placeholder in the five other slots |
| `Profile.RenderProfile` | script.js:127-143 | each existing slot receives its text and a missing one is skipped; the texts do not depend on earlier contents, so rendering twice gives the same card |
| `Profile.Show` | script.js:137-142 | `if (el) el.textContent = text`: an existing slot receives the text and keeps its children; a missing one is skipped |
| `Typing.Resolve` | script.js:57-64 | the option defaults 12, 28, 0.04, 0.03, 120, 420; no contract of its own, characterised by `Typing.DefaultsOrdered` |
| `Typing.DefaultsOrdered` | script.js:57-64 | the defaults satisfy the ordering under which every range clause of `Typing.TypeLine` applies |
| `Typing.MaybePause` | script.js:69-72 | a pause is returned exactly when the first draw is below `pauseChance`; it then uses a second draw and lies between `pauseMin` and `pauseMax` |
| `Typing.Delay` | script.js:76-79 | the delay lies between `minDelay` and `maxDelay`, or up to 2.2 times `maxDelay` after a jitter draw below `jitterChance` |
| `Typing.TypeLine` | script.js:55-83 | with no element nothing happens and nothing is slept; otherwise after the i-th character the element shows exactly the first i characters and at the end the whole text, whatever the draws; there is one optional pause and one delay per character, each pause between `pauseMin` and `pauseMax` and each delay between `minDelay` and 2.2 times `maxDelay` |

## Left out

- DOM access (`getElementById`, `createElement`, `innerHTML` parsing, `scrollTo`) is abstracted to `Dom.Element`; the markup is kept as the string assigned, not parsed into nodes.
- Timers and sequencing (`sleep`, `setTimeout`, the `setInterval` heartbeat, `runSequence` and its swallowed rejection, the `DOMContentLoaded` wiring) are left out: they only order the calls that are modelled.
- `glitchPulse` is left out: it applies random CSS transforms and affects nothing but appearance.
- Reading `window.DEMO_PROFILE` is replaced by the record passed to `Profile.Render` and `Profile.RenderProfile`; the record itself is not part of this model.
- `Typing.TypeLine`: the sleeps are computed over exact reals rather than IEEE doubles, and the `await`s between characters are not modelled; text is indexed by `char` where JavaScript indexes UTF-16 code units.
- `Progress.ProgressBar`: the percentage is an integer; fractional percentages and floating-point rounding error in `(pct / 100) * 22` are not modelled (for integers in range no product is within rounding error of a half, and the two exact halves, 25 and 75, are representable).
- `Profile.AgeText`: the age is taken to be an integer; a fractional age, a string age, `NaN` or `false` are not modelled.
- `Escape.EscapeHtmlIsPerCharacter`: the argument is taken to be a string; the `String(str)` coercion of other values is not modelled.
- `JsString.ReplaceAll`: an empty pattern, which the script never passes, is not modelled; nor are the `$` patterns (`$&`, `$1`, `$$`) a replacement string may hold, and no replacement in script.js contains `$`.
- `JsString.IntToString`: gives the plain decimal numeral for every integer, whereas JavaScript switches to exponent notation from 1e21 in magnitude; no percentage in the script comes near that.
- `Dom.Element`: `content` and `items` are independent fields, so `Log.AddLog` keeps `content` and `Screen.WriteScreen`, `Typing.TypeLine` and `Profile.RenderProfile` keep `items`, where in the DOM appending a child changes `innerHTML` and assigning `innerHTML` or `textContent` removes the children. The script never uses one element both ways (the log list only receives children; the screen and the typed elements only receive text), so no behaviour of the script depends on the link.
