/**
 * The event form's schema: a name of 1 to 100 characters, an optional
 * description of at most 1000, and a whole-number capacity from 1 to 500.
 */
module EventSchema {
  import opened Wrappers
  import opened JsText
  import opened Schema

  /** The submitted form, with the capacity already read as a number; a missing description is `None`. */
  datatype Form = Form(name: string, description: Option<string>, capacity: real)

  /** An accepted event. */
  datatype EventInput = EventInput(name: string, description: Option<string>, capacity: int)

  const DescriptionMessage: string := "Beschreibung darf maximal 1000 Zeichen lang sein"

  /**
   * `.max(1000).optional().or(z.literal(''))`: an absent description passes,
   * so does the empty string; a longer one than 1000 fails the first option
   * with its length message, which the union reports.
   */
  function DescriptionIssues(d: Option<string>): (r: seq<Issue>)
    ensures r == [] <==> (d.None? || JsLength(d.value) <= 1000)
    ensures r != [] ==> r == [Issue("description", TooBig, Some(DescriptionMessage))]
  {
    match d
    case None => []
    case Some(s) => if JsLength(s) <= 1000 then [] else [Issue("description", TooBig, Some(DescriptionMessage))]
  }

  /** Every issue `safeParse` reports, field by field in declaration order. */
  function Issues(f: Form): seq<Issue> {
    LengthIssues("name", f.name, 1, "Name ist erforderlich", 100, "Name darf maximal 100 Zeichen lang sein")
    + DescriptionIssues(f.description)
    + NumberIssues("capacity", f.capacity, Some("Kapazitaet muss eine ganze Zahl sein"),
                   1, Some("Kapazitaet muss mindestens 1 sein"),
                   Some((500, Some("Kapazitaet darf maximal 500 sein"))))
  }

  /** `eventSchema.safeParse`. */
  function Parse(f: Form): Parsed<EventInput> {
    var issues := Issues(f);
    if issues != [] then Failed(issues) else Ok(EventInput(f.name, f.description, f.capacity.Floor))
  }

  /** The form as the schema requires it, stated field by field. */
  predicate WellFormed(f: Form) {
    && 1 <= JsLength(f.name) <= 100
    && (f.description.Some? ==> JsLength(f.description.value) <= 1000)
    && IsInteger(f.capacity) && 1.0 <= f.capacity <= 500.0
  }

  /** A form is accepted exactly when it is well formed; an accepted capacity is a whole number from 1 to 500. */
  lemma ParseAcceptsWellFormed(f: Form)
    ensures Parse(f).Ok? <==> WellFormed(f)
    ensures Parse(f).Ok? ==> 1 <= Parse(f).value.capacity <= 500 && Parse(f).value.capacity as real == f.capacity
  {
  }

  /** Each capacity check reports its own message: not whole, below 1, above 500. */
  lemma CapacityMessages(f: Form)
    ensures !IsInteger(f.capacity) ==> Issue("capacity", NotInteger, Some("Kapazitaet muss eine ganze Zahl sein")) in Issues(f)
    ensures f.capacity < 1.0 ==> Issue("capacity", TooSmall, Some("Kapazitaet muss mindestens 1 sein")) in Issues(f)
    ensures f.capacity > 500.0 ==> Issue("capacity", TooBig, Some("Kapazitaet darf maximal 500 sein")) in Issues(f)
  {
  }

  /** An empty description is accepted like an absent one. */
  lemma EmptyDescriptionAccepted()
    ensures DescriptionIssues(Some("")) == []
  {
  }
}
