/**
 * The printed waitlist (Sonderliste): for every student without an assigned
 * event, the reason they were left out, judged from how full each of their
 * chosen events is.
 */
module Sonderliste {
  import opened Wrappers

  /** An event with its capacity and the number of students now assigned to it. */
  datatype EventLoad = EventLoad(id: int, name: string, capacity: int, count: int)

  /** What the capacity map holds for one event. */
  datatype Fill = Fill(capacity: int, count: int)

  /**
   * An unassigned student as the waitlist query returns them. A priority's
   * name is null when its id is null, and also when the event it names no
   * longer exists; either way the name is printed as "".
   */
  datatype Waiting = Waiting(
    firstName: string, lastName: string, schoolClass: string,
    priority1Id: Option<int>, priority1Name: Option<string>,
    priority2Id: Option<int>, priority2Name: Option<string>,
    priority3Id: Option<int>, priority3Name: Option<string>)

  /** A priority that names an event. */
  datatype Choice = Choice(id: int, name: Option<string>)

  /** One printed line of the waitlist. */
  datatype Listed = Listed(
    firstName: string, lastName: string, schoolClass: string,
    priority1Name: Option<string>, priority2Name: Option<string>, priority3Name: Option<string>,
    reason: string)

  const AllFull: string := "Alle Wahlen voll"
  const NotAssigned: string := "Nicht zugewiesen"

  /** `new Map(events.map(e => [e.id, {capacity, count}]))`: a later entry for the same id replaces an earlier one. */
  function CapacityMap(events: seq<EventLoad>): (r: map<int, Fill>)
    ensures forall i | 0 <= i < |events| :: events[i].id in r
    ensures forall id | id in r :: exists i | 0 <= i < |events| :: events[i].id == id
  {
    if events == [] then map[]
    else
      var e := events[|events| - 1];
      CapacityMap(events[..|events| - 1])[e.id := Fill(e.capacity, e.count)]
  }

  /** The three priorities in rank order, each as an id that may be null and its event's name. */
  function Ranked(w: Waiting): seq<(Option<int>, Option<string>)> {
    [(w.priority1Id, w.priority1Name), (w.priority2Id, w.priority2Name), (w.priority3Id, w.priority3Name)]
  }

  /** The priorities whose id is not null, in the order given. */
  function Present(ps: seq<(Option<int>, Option<string>)>): (r: seq<Choice>)
    ensures |r| <= |ps|
  {
    if ps == [] then []
    else
      var last := ps[|ps| - 1];
      Present(ps[..|ps| - 1]) + (if last.0.Some? then [Choice(last.0.value, last.1)] else [])
  }

  /** An event is full when it is known and has as many students as places or more; an unknown id is never full. */
  predicate IsFull(fills: map<int, Fill>, id: int) {
    id in fills && fills[id].count >= fills[id].capacity
  }

  /** The choices whose event is full, in the order given. */
  function FullOnes(fills: map<int, Fill>, cs: seq<Choice>): (r: seq<Choice>)
    ensures |r| <= |cs|
  {
    if cs == [] then []
    else
      var last := cs[|cs| - 1];
      FullOnes(fills, cs[..|cs| - 1]) + (if IsFull(fills, last.id) then [last] else [])
  }

  /** A name as `Array.prototype.join` writes it: null becomes the empty string. */
  function NameText(name: Option<string>): string {
    match name
    case None => ""
    case Some(n) => n
  }

  /** The names of the choices joined with `", "`. */
  function JoinNames(cs: seq<Choice>): string {
    if cs == [] then ""
    else if |cs| == 1 then NameText(cs[0].name)
    else NameText(cs[0].name) + ", " + JoinNames(cs[1..])
  }

  /** The reason rule, over the student's non-null priorities. */
  function Reason(fills: map<int, Fill>, cs: seq<Choice>): string {
    var full := FullOnes(fills, cs);
    if |full| == |cs| && |cs| > 0 then AllFull
    else if |full| > 0 then JoinNames(full) + " voll"
    else NotAssigned
  }

  /** One student's printed line. */
  function ListOne(fills: map<int, Fill>, w: Waiting): Listed {
    Listed(w.firstName, w.lastName, w.schoolClass, w.priority1Name, w.priority2Name, w.priority3Name,
           Reason(fills, Present(Ranked(w))))
  }

  /** The whole waitlist: one line per unassigned student, in the order the query returns them. */
  function Waitlist(events: seq<EventLoad>, waiting: seq<Waiting>): (r: seq<Listed>)
    ensures |r| == |waiting|
    ensures forall i | 0 <= i < |waiting| ::
      && r[i].firstName == waiting[i].firstName
      && r[i].lastName == waiting[i].lastName
      && r[i].schoolClass == waiting[i].schoolClass
      && r[i].priority1Name == waiting[i].priority1Name
      && r[i].priority2Name == waiting[i].priority2Name
      && r[i].priority3Name == waiting[i].priority3Name
      && r[i].reason == Reason(CapacityMap(events), Present(Ranked(waiting[i])))
  {
    var fills := CapacityMap(events);
    seq(|waiting|, i requires 0 <= i < |waiting| => ListOne(fills, waiting[i]))
  }

  // ---------------------------------------------------------------------------
  // Properties
  // ---------------------------------------------------------------------------

  /** The map holds, for each id, what the last event with that id says. */
  lemma {:induction false} CapacityMapLastWins(events: seq<EventLoad>, i: int)
    requires 0 <= i < |events|
    requires forall j | i < j < |events| :: events[j].id != events[i].id
    ensures CapacityMap(events)[events[i].id] == Fill(events[i].capacity, events[i].count)
  {
    if i < |events| - 1 {
      CapacityMapLastWins(events[..|events| - 1], i);
    }
  }

  /** A priority is kept exactly when its id is not null, and nothing else is kept. */
  lemma {:induction false} PresentMembers(ps: seq<(Option<int>, Option<string>)>)
    ensures forall i | 0 <= i < |ps| && ps[i].0.Some? :: Choice(ps[i].0.value, ps[i].1) in Present(ps)
    ensures forall c | c in Present(ps) :: (Some(c.id), c.name) in ps
  {
    if ps != [] {
      var init := ps[..|ps| - 1];
      PresentMembers(init);
      forall i | 0 <= i < |ps| && ps[i].0.Some?
        ensures Choice(ps[i].0.value, ps[i].1) in Present(ps)
      {
        if i < |ps| - 1 {
          assert ps[i] == init[i];
        }
      }
      forall c | c in Present(ps)
        ensures (Some(c.id), c.name) in ps
      {
        if c in Present(init) {
          assert (Some(c.id), c.name) in init;
        } else {
          assert ps[|ps| - 1] == (Some(c.id), c.name);
        }
      }
    }
  }

  /** The three priorities keep their rank order: the kept list is rank 1's, then rank 2's, then rank 3's. */
  lemma RankOrderKept(w: Waiting)
    ensures Present(Ranked(w))
      == Keep(w.priority1Id, w.priority1Name) + Keep(w.priority2Id, w.priority2Name) + Keep(w.priority3Id, w.priority3Name)
  {
    var ps := Ranked(w);
    var one, two := ps[..1], ps[..2];
    assert two[..1] == one && one[..0] == [];
    assert Present(one) == Keep(w.priority1Id, w.priority1Name);
    assert Present(two) == Present(one) + Keep(w.priority2Id, w.priority2Name);
    assert Present(ps) == Present(two) + Keep(w.priority3Id, w.priority3Name);
  }

  /** A single priority as a list of choices: empty when its id is null. */
  function Keep(id: Option<int>, name: Option<string>): seq<Choice> {
    if id.Some? then [Choice(id.value, name)] else []
  }

  /** Every choice is full exactly when the filter keeps them all. */
  lemma {:induction false} AllFullIff(fills: map<int, Fill>, cs: seq<Choice>)
    ensures |FullOnes(fills, cs)| == |cs| <==> forall c | c in cs :: IsFull(fills, c.id)
  {
    if cs != [] {
      var init := cs[..|cs| - 1];
      AllFullIff(fills, init);
      assert forall c | c in init :: c in cs;
      assert cs == init + [cs[|cs| - 1]];
      if !IsFull(fills, cs[|cs| - 1].id) {
        assert |FullOnes(fills, init)| <= |init|;
      }
    }
  }

  /** Some choice is full exactly when the filter keeps one. */
  lemma {:induction false} SomeFullIff(fills: map<int, Fill>, cs: seq<Choice>)
    ensures |FullOnes(fills, cs)| > 0 <==> exists c | c in cs :: IsFull(fills, c.id)
  {
    if cs != [] {
      var init := cs[..|cs| - 1];
      SomeFullIff(fills, init);
      assert forall c | c in init :: c in cs;
      assert cs == init + [cs[|cs| - 1]];
    }
  }

  /** The filter keeps full choices only, in their order. */
  lemma {:induction false} FullOnesAreFull(fills: map<int, Fill>, cs: seq<Choice>)
    ensures forall c | c in FullOnes(fills, cs) :: c in cs && IsFull(fills, c.id)
  {
    if cs != [] {
      FullOnesAreFull(fills, cs[..|cs| - 1]);
      assert forall c | c in cs[..|cs| - 1] :: c in cs;
    }
  }

  /**
   * The three reasons, stated over the chosen events themselves: all full
   * (and at least one chosen), some full and some not, none full.
   */
  lemma ReasonCases(fills: map<int, Fill>, cs: seq<Choice>)
    ensures cs != [] && (forall c | c in cs :: IsFull(fills, c.id))
      ==> Reason(fills, cs) == AllFull
    ensures (exists c | c in cs :: IsFull(fills, c.id)) && (exists c | c in cs :: !IsFull(fills, c.id))
      ==> Reason(fills, cs) == JoinNames(FullOnes(fills, cs)) + " voll"
    ensures (forall c | c in cs :: !IsFull(fills, c.id))
      ==> Reason(fills, cs) == NotAssigned
  {
    AllFullIff(fills, cs);
    SomeFullIff(fills, cs);
  }

  /**
   * A student none of whose chosen events is in the capacity map (every one
   * of them deleted, or no choice at all) is listed as simply not assigned.
   */
  lemma UnknownChoicesNotAssigned(fills: map<int, Fill>, w: Waiting)
    requires w.priority1Id.Some? ==> w.priority1Id.value !in fills
    requires w.priority2Id.Some? ==> w.priority2Id.value !in fills
    requires w.priority3Id.Some? ==> w.priority3Id.value !in fills
    ensures ListOne(fills, w).reason == NotAssigned
  {
    RankOrderKept(w);
    ReasonCases(fills, Present(Ranked(w)));
  }
}
