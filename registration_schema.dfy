/**
 * The registration form's schema: name and class lengths, a required first
 * priority and two optional ones (blank, null or missing mean "none"), and the
 * rule that the priorities given must name different events.
 */
module RegistrationSchema {
  import opened Wrappers
  import opened JsText
  import opened Schema

  /** An optional priority as the form submits it. */
  datatype RawPriority = Blank | Null | Undefined | Number(value: real)

  /** The submitted form, with numbers already read. */
  datatype Form = Form(
    firstName: string, lastName: string, schoolClass: string,
    priority1Id: real, priority2Id: RawPriority, priority3Id: RawPriority)

  /** An accepted registration. */
  datatype Registration = Registration(
    firstName: string, lastName: string, schoolClass: string,
    priority1Id: int, priority2Id: Option<int>, priority3Id: Option<int>)

  const DistinctMessage: string := "Alle Prioritaeten muessen unterschiedlich sein"

  /** The preprocessing step: an empty string, null or undefined becomes null. */
  function Normalize(p: RawPriority): (r: Option<real>)
    ensures r.None? <==> (p == Blank || p == Null || p == Undefined)
    ensures r.Some? ==> r.value == p.value
  {
    if p.Number? then Some(p.value) else None
  }

  /** `.int().min(1).nullable()`: null passes, a number must be a whole number of at least 1. */
  function OptionalPriorityIssues(path: string, p: Option<real>): (r: seq<Issue>)
    ensures r == [] <==> (p.None? || (IsInteger(p.value) && p.value >= 1.0))
  {
    match p
    case None => []
    case Some(v) => NumberIssues(path, v, None, 1, None, None)
  }

  /** The checks on each field, in the order the schema declares them. */
  function FieldIssues(f: Form): seq<Issue> {
    LengthIssues("firstName", f.firstName, 1, "Vorname ist erforderlich",
                 100, "Vorname darf maximal 100 Zeichen lang sein")
    + LengthIssues("lastName", f.lastName, 1, "Nachname ist erforderlich",
                   100, "Nachname darf maximal 100 Zeichen lang sein")
    + LengthIssues("class", f.schoolClass, 1, "Klasse ist erforderlich",
                   10, "Klasse darf maximal 10 Zeichen lang sein")
    + NumberIssues("priority1Id", f.priority1Id, None, 1, Some("1. Prioritaet ist erforderlich"), None)
    + OptionalPriorityIssues("priority2Id", Normalize(f.priority2Id))
    + OptionalPriorityIssues("priority3Id", Normalize(f.priority3Id))
  }

  /** The priorities that are not null, in rank order. */
  function Chosen(f: Form): (r: seq<real>)
    ensures 1 <= |r| <= 3 && r[0] == f.priority1Id
  {
    var p2, p3 := Normalize(f.priority2Id), Normalize(f.priority3Id);
    [f.priority1Id] + (if p2.Some? then [p2.value] else []) + (if p3.Some? then [p3.value] else [])
  }

  /** `new Set(s)`: the values, added one after another. */
  function Elements(s: seq<real>): (r: set<real>)
    ensures |r| <= |s|
    ensures forall x :: x in r <==> x in s
  {
    if s == [] then {} else Elements(s[..|s| - 1]) + {s[|s| - 1]}
  }

  /** The refinement: the set of chosen priorities is as large as the list. */
  predicate SameSize(f: Form) {
    |Elements(Chosen(f))| == |Chosen(f)|
  }

  /** Every issue `safeParse` reports: the field checks, then the refinement's on `priority3Id`. */
  function Issues(f: Form): seq<Issue> {
    FieldIssues(f) + (if SameSize(f) then [] else [Issue("priority3Id", Custom, Some(DistinctMessage))])
  }

  /** `registrationSchema.safeParse`. */
  function Parse(f: Form): Parsed<Registration> {
    var issues := Issues(f);
    if issues != [] then Failed(issues)
    else
      var p2, p3 := Normalize(f.priority2Id), Normalize(f.priority3Id);
      Ok(Registration(f.firstName, f.lastName, f.schoolClass, f.priority1Id.Floor, WholeOf(p2), WholeOf(p3)))
  }

  // ---------------------------------------------------------------------------
  // What an accepted form satisfies
  // ---------------------------------------------------------------------------

  /** No value occurs twice. */
  predicate NoRepeats(s: seq<real>) {
    forall i, j | 0 <= i < j < |s| :: s[i] != s[j]
  }

  /** Appending a value not already present keeps a list free of repeats, and only then. */
  lemma NoRepeatsSnoc(init: seq<real>, last: real)
    requires last !in init
    ensures NoRepeats(init + [last]) <==> NoRepeats(init)
  {
    var s := init + [last];
    if NoRepeats(init) {
      forall i, j | 0 <= i < j < |s|
        ensures s[i] != s[j]
      {
        assert s[i] == init[i];
        if j < |init| {
          assert s[j] == init[j];
        }
      }
    }
    if NoRepeats(s) {
      forall i, j | 0 <= i < j < |init|
        ensures init[i] != init[j]
      {
        assert s[i] == init[i] && s[j] == init[j];
      }
    }
  }

  /** A set built from a list is as large as the list exactly when no value repeats. */
  lemma {:induction false} SetSizeIffNoRepeats(s: seq<real>)
    ensures |Elements(s)| == |s| <==> NoRepeats(s)
  {
    if s != [] {
      var init, last := s[..|s| - 1], s[|s| - 1];
      assert s == init + [last];
      SetSizeIffNoRepeats(init);
      if last in init {
        var i :| 0 <= i < |init| && init[i] == last;
        assert s[i] == s[|s| - 1];
        assert Elements(s) == Elements(init);
      } else {
        assert |Elements(s)| == |Elements(init)| + 1;
        NoRepeatsSnoc(init, last);
      }
    }
  }

  /** An optional priority that is absent, or a whole number of at least 1. */
  predicate OptionalOk(p: RawPriority) {
    !p.Number? || (IsInteger(p.value) && p.value >= 1.0)
  }

  /** Two priorities conflict only when both are given and equal; a null never conflicts. */
  predicate Differ(a: Option<real>, b: Option<real>) {
    a.None? || b.None? || a.value != b.value
  }

  /** The form as the schema requires it, stated field by field. */
  predicate WellFormed(f: Form) {
    var p2, p3 := Normalize(f.priority2Id), Normalize(f.priority3Id);
    && 1 <= JsLength(f.firstName) <= 100
    && 1 <= JsLength(f.lastName) <= 100
    && 1 <= JsLength(f.schoolClass) <= 10
    && IsInteger(f.priority1Id) && f.priority1Id >= 1.0
    && OptionalOk(f.priority2Id) && OptionalOk(f.priority3Id)
    && Differ(Some(f.priority1Id), p2) && Differ(Some(f.priority1Id), p3) && Differ(p2, p3)
  }

  /** Short lists are free of repeats exactly when their values differ pairwise. */
  lemma ShortNoRepeats(a: real, b: real, c: real)
    ensures NoRepeats([a])
    ensures NoRepeats([a, b]) <==> a != b
    ensures NoRepeats([a, b, c]) <==> a != b && a != c && b != c
  {
    var s := [a, b, c];
    assert s[0] == a && s[1] == b && s[2] == c;
    assert [a, b][0] == a && [a, b][1] == b;
  }

  /** The chosen priorities are free of repeats exactly when the given ones differ pairwise. */
  lemma ChosenNoRepeats(f: Form)
    ensures NoRepeats(Chosen(f)) <==>
      var p2, p3 := Normalize(f.priority2Id), Normalize(f.priority3Id);
      Differ(Some(f.priority1Id), p2) && Differ(Some(f.priority1Id), p3) && Differ(p2, p3)
  {
    var p1, p2, p3 := f.priority1Id, Normalize(f.priority2Id), Normalize(f.priority3Id);
    match (p2, p3)
    case (None, None) =>
      assert Chosen(f) == [p1];
      ShortNoRepeats(p1, p1, p1);
    case (Some(b), None) =>
      assert Chosen(f) == [p1, b];
      ShortNoRepeats(p1, b, b);
    case (None, Some(c)) =>
      assert Chosen(f) == [p1, c];
      ShortNoRepeats(p1, c, c);
    case (Some(b), Some(c)) =>
      assert Chosen(f) == [p1, b, c];
      ShortNoRepeats(p1, b, c);
  }

  /** The refinement holds exactly when the given priorities are pairwise different. */
  lemma DistinctIffDiffer(f: Form)
    ensures SameSize(f) <==>
      var p2, p3 := Normalize(f.priority2Id), Normalize(f.priority3Id);
      Differ(Some(f.priority1Id), p2) && Differ(Some(f.priority1Id), p3) && Differ(p2, p3)
  {
    SetSizeIffNoRepeats(Chosen(f));
    ChosenNoRepeats(f);
  }

  /** A form is accepted exactly when it is well formed. */
  lemma ParseAcceptsWellFormed(f: Form)
    ensures Parse(f).Ok? <==> WellFormed(f)
  {
    DistinctIffDiffer(f);
  }

  /** Whole numbers that differ have different floors, and one of at least 1 has a floor of at least 1. */
  lemma WholeFloors(a: real, b: real)
    requires IsInteger(a) && IsInteger(b)
    ensures a >= 1.0 ==> a.Floor >= 1
    ensures a != b ==> a.Floor != b.Floor
  {
  }

  /** The whole number an accepted optional priority holds. */
  function WholeOf(p: Option<real>): Option<int> {
    if p.Some? then Some(p.value.Floor) else None
  }

  /** An accepted registration has a first priority of at least 1, optional ones of at least 1, all different. */
  lemma AcceptedRegistration(f: Form)
    requires Parse(f).Ok?
    ensures var r := Parse(f).value;
      && r.priority1Id >= 1
      && (r.priority2Id.Some? ==> r.priority2Id.value >= 1 && r.priority2Id.value != r.priority1Id)
      && (r.priority3Id.Some? ==> r.priority3Id.value >= 1 && r.priority3Id.value != r.priority1Id)
      && (r.priority2Id.Some? && r.priority3Id.Some? ==> r.priority2Id.value != r.priority3Id.value)
      && r.firstName == f.firstName && r.lastName == f.lastName && r.schoolClass == f.schoolClass
  {
    var p1, p2, p3 := f.priority1Id, Normalize(f.priority2Id), Normalize(f.priority3Id);
    assert WellFormed(f) by {
      ParseAcceptsWellFormed(f);
    }
    assert Parse(f).value
      == Registration(f.firstName, f.lastName, f.schoolClass, p1.Floor, WholeOf(p2), WholeOf(p3));
    if p2.Some? {
      WholeFloors(p2.value, p1);
    }
    if p3.Some? {
      WholeFloors(p3.value, p1);
      if p2.Some? {
        WholeFloors(p2.value, p3.value);
      }
    }
    WholeFloors(p1, p1);
  }

  /** Repeated priorities are reported once, on `priority3Id`, after every field issue. */
  lemma RepeatReportedOnThird(f: Form)
    requires !SameSize(f)
    ensures Issues(f)[|Issues(f)| - 1] == Issue("priority3Id", Custom, Some(DistinctMessage))
    ensures Parse(f).Failed?
  {
  }
}
