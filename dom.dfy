/**
 * The page elements the script writes to, reduced to the two things it changes:
 * the element's text (`textContent` or `innerHTML`, as a string) and, for the log
 * list, the markup of the `li` children appended to it. A missing element, when
 * `document.getElementById` finds nothing, is `null`.
 */
module Dom {
  class Element {
    var content: string
    var items: seq<string>

    constructor ()
      ensures content == [] && items == []
    {
      content := [];
      items := [];
    }
  }
}
