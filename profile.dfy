/**
 * `renderProfile` (script.js): the profile record is projected onto six display
 * slots with JavaScript's `||`, so an absent or falsy property shows the
 * placeholder `—`.
 */
module Profile {
  import opened Wrappers
  import opened JsString
  import opened Dom

  /** The placeholder glyph, U+2014 EM DASH. */
  const Placeholder := "—"

  /** The profile record; every property is optional (an object literal may omit it). */
  datatype Profile = Profile(
    fullName: Option<string> := None,
    phone: Option<string> := None,
    city: Option<string> := None,
    area: Option<string> := None,
    age: Option<int> := None,
    sources: Option<seq<string>> := None,
    confidence: Option<string> := None)

  /** The six texts the card shows. */
  datatype Card = Card(name: string, phone: string, location: string, age: string,
                       sources: string, confidence: string)

  /** `v || "—"` for a string property: absent and the empty string are falsy. */
  function OrPlaceholder(v: Option<string>): (r: string)
    ensures r != ""
    ensures r == Placeholder <==> v.None? || v.value == "" || v.value == Placeholder
    ensures r != Placeholder ==> v == Some(r)
  {
    if v.Some? && v.value != "" then v.value else Placeholder
  }

  /** `p.age || "—"`: absent and 0 are falsy; any other number is shown as its numeral. */
  function AgeText(v: Option<int>): (r: string)
    ensures r == Placeholder <==> v.None? || v.value == 0
    ensures r != Placeholder ==> r == IntToString(v.value)
  {
    if v.Some? && v.value != 0 then IntToString(v.value) else Placeholder
  }

  /** `(p.sources || []).join(" + ") || "—"`. */
  function SourcesText(v: Option<seq<string>>): string
  {
    var joined := Join(if v.Some? then v.value else [], " + ");
    if joined != "" then joined else Placeholder
  }

  /**
   * `window.DEMO_PROFILE || {}` followed by the six slot texts. Every slot shows
   * something: the placeholder stands in wherever a value would be blank.
   */
  function Render(p: Option<Profile>): (c: Card)
    ensures c.name != "" && c.phone != "" && c.age != "" && c.sources != "" && c.confidence != ""
    ensures exists a: string, b: string :: a != "" && b != "" && c.location == a + " / " + b
  {
    var q := if p.Some? then p.value else Profile();
    assert OrPlaceholder(q.city) != "" && OrPlaceholder(q.area) != "";
    Card(OrPlaceholder(q.fullName), OrPlaceholder(q.phone),
         OrPlaceholder(q.city) + " / " + OrPlaceholder(q.area),
         AgeText(q.age), SourcesText(q.sources), OrPlaceholder(q.confidence))
  }

  /**
   * The sources slot shows the placeholder exactly when the list is absent, empty,
   * or a single empty name; otherwise the names joined with ` + `.
   */
  lemma SourcesShown(v: Option<seq<string>>)
    ensures SourcesText(v) == Placeholder <==>
      v.None? || |v.value| == 0 || (|v.value| == 1 && v.value[0] in {"", Placeholder})
    ensures SourcesText(v) != Placeholder ==> v.Some? && SourcesText(v) == Join(v.value, " + ")
  {
  }

  /** A record with only a full name shows the name and five placeholders. */
  lemma NameOnlyCard()
    ensures Render(Some(Profile(fullName := Some("Jane Doe"))))
         == Card("Jane Doe", "—", "— / —", "—", "—", "—")
  {
  }

  /** What a string slot shows: the placeholder where the property is missing, else its value. */
  function Shown(v: Option<string>): string
  {
    if Missing(v) then Placeholder else v.value
  }

  /**
   * Every slot of the card against the record: each string slot shows its value
   * when the property is present and the placeholder when it is missing; the
   * location defaults city and area on their own; the age shows its numeral unless
   * absent or 0; the sources show the names joined with ` + `. An absent record
   * renders as an empty one.
   */
  lemma CardShows(p: Profile)
    ensures Render(Some(p)).name == Shown(p.fullName)
    ensures Render(Some(p)).phone == Shown(p.phone)
    ensures Render(Some(p)).location == Shown(p.city) + " / " + Shown(p.area)
    ensures Render(Some(p)).age == (if p.age.None? || p.age.value == 0 then Placeholder else IntToString(p.age.value))
    ensures Render(Some(p)).sources == SourcesText(p.sources)
    ensures Render(Some(p)).confidence == Shown(p.confidence)
    ensures Render(None) == Render(Some(Profile()))
  {
  }

  /**
   * The name shows the placeholder exactly where the record has no truthy name (or
   * the name is the glyph itself), and a present name as it is.
   */
  lemma NameSlot(p: Profile)
    ensures Render(Some(p)).name == Placeholder <==> Missing(p.fullName)
    ensures !Missing(p.fullName) ==> Render(Some(p)).name == p.fullName.value
  {
    CardShows(p);
  }

  /** The phone slot, likewise. */
  lemma PhoneSlot(p: Profile)
    ensures Render(Some(p)).phone == Placeholder <==> Missing(p.phone)
    ensures !Missing(p.phone) ==> Render(Some(p)).phone == p.phone.value
  {
    CardShows(p);
  }

  /** The confidence slot, likewise. */
  lemma ConfidenceSlot(p: Profile)
    ensures Render(Some(p)).confidence == Placeholder <==> Missing(p.confidence)
    ensures !Missing(p.confidence) ==> Render(Some(p)).confidence == p.confidence.value
  {
    CardShows(p);
  }

  /** The age shows the placeholder exactly when absent or 0, and otherwise its numeral. */
  lemma AgeSlot(p: Profile)
    ensures Render(Some(p)).age == Placeholder <==> p.age.None? || p.age.value == 0
    ensures p.age.Some? && p.age.value != 0 ==> Render(Some(p)).age == IntToString(p.age.value)
  {
    CardShows(p);
  }

  /** The sources show the placeholder exactly when there is no name to join. */
  lemma SourcesSlot(p: Profile)
    ensures Render(Some(p)).sources == Placeholder <==>
      p.sources.None? || |p.sources.value| == 0
      || (|p.sources.value| == 1 && p.sources.value[0] in {"", Placeholder})
    ensures Render(Some(p)).sources != Placeholder ==> Render(Some(p)).sources == Join(p.sources.value, " + ")
  {
    CardShows(p);
    SourcesShown(p.sources);
  }

  /**
   * A present city starts the location and a present area ends it; a missing half
   * shows the placeholder in its place.
   */
  lemma LocationSlot(p: Profile)
    ensures !Missing(p.city) ==> Render(Some(p)).location[..|p.city.value|] == p.city.value
    ensures !Missing(p.area) ==> Render(Some(p)).location[|Render(Some(p)).location| - |p.area.value|..] == p.area.value
    ensures Missing(p.city) ==> Placeholder + " / " <= Render(Some(p)).location
    ensures Missing(p.area) ==> Render(Some(p)).location[|Render(Some(p)).location| - 4..] == " / " + Placeholder
  {
    CardShows(p);
  }

  /** A string property shows the placeholder: absent, empty, or the glyph itself. */
  predicate Missing(v: Option<string>)
  {
    v.None? || v.value == "" || v.value == Placeholder
  }

  /** No two slots are the same element (they are looked up by six distinct ids). */
  predicate DistinctSlots(a: Element?, b: Element?, c: Element?, d: Element?, e: Element?, f: Element?)
  {
    && (a != null ==> a != b && a != c && a != d && a != e && a != f)
    && (b != null ==> b != c && b != d && b != e && b != f)
    && (c != null ==> c != d && c != e && c != f)
    && (d != null ==> d != e && d != f)
    && (e != null ==> e != f)
  }

  /**
   * One call of `renderProfile()`: each slot that exists gets its text; a missing
   * slot is skipped. The new texts do not depend on what the slots held before, so
   * a second call with the same record leaves the same texts.
   */
  method RenderProfile(p: Option<Profile>,
                       nameEl: Element?, phoneEl: Element?, locEl: Element?,
                       ageEl: Element?, srcEl: Element?, confEl: Element?)
    requires DistinctSlots(nameEl, phoneEl, locEl, ageEl, srcEl, confEl)
    modifies nameEl, phoneEl, locEl, ageEl, srcEl, confEl
    ensures nameEl != null ==> nameEl.content == Render(p).name
    ensures phoneEl != null ==> phoneEl.content == Render(p).phone
    ensures locEl != null ==> locEl.content == Render(p).location
    ensures ageEl != null ==> ageEl.content == Render(p).age
    ensures srcEl != null ==> srcEl.content == Render(p).sources
    ensures confEl != null ==> confEl.content == Render(p).confidence
    ensures nameEl != null ==> nameEl.items == old(nameEl.items)
    ensures phoneEl != null ==> phoneEl.items == old(phoneEl.items)
    ensures locEl != null ==> locEl.items == old(locEl.items)
    ensures ageEl != null ==> ageEl.items == old(ageEl.items)
    ensures srcEl != null ==> srcEl.items == old(srcEl.items)
    ensures confEl != null ==> confEl.items == old(confEl.items)
  {
    var c := Render(p);
    Show(nameEl, c.name);
    Show(phoneEl, c.phone);
    Show(locEl, c.location);
    Show(ageEl, c.age);
    Show(srcEl, c.sources);
    Show(confEl, c.confidence);
  }

  /** `if (el) el.textContent = text`: a missing slot is skipped. */
  method Show(el: Element?, text: string)
    modifies el
    ensures el != null ==> el.content == text && el.items == old(el.items)
  {
    if el != null {
      el.content := text;
    }
  }
}
