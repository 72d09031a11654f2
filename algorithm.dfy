/**
 * The lottery allocation engine: every registrant of the sports day is given
 * one event, preferences are served in rank order over three shuffled rounds,
 * events never take more students than their remaining capacity allows, and
 * whoever is left goes on the waitlist (the Sonderliste).
 *
 * The engine mutates two maps (remaining capacity and assignments) through
 * `tryAssign` and builds its work lists in loops; the methods below do the
 * same, and each is proved equal to a pure specification function, about
 * which the properties are proved in modules AlgorithmProofs, AlgorithmTheorems and AlgorithmStats.
 */
module Algorithm {
  import opened Wrappers
  import opened JsText
  import opened Random

  // ---------------------------------------------------------------------------
  // Input and output shapes
  // ---------------------------------------------------------------------------

  datatype AssignmentType = Auto | Manual

  /** A registrant with three ranked event preferences; the second and third may be missing. */
  datatype Student = Student(
    id: int,
    priority1Id: int,
    priority2Id: Option<int>,
    priority3Id: Option<int>,
    assignedEventId: Option<int>,
    assignmentType: Option<AssignmentType>)

  datatype Event = Event(id: int, capacity: int)

  datatype AllocationInput = AllocationInput(
    students: seq<Student>,
    events: seq<Event>,
    seed: string,
    preserveManual: bool)

  datatype AllocationStats = AllocationStats(
    total: int,
    got1stChoice: int,
    got2ndChoice: int,
    got3rdChoice: int,
    sonderliste: int)

  /** Student id to event id, `None` meaning the waitlist. */
  type Assignments = map<int, Option<int>>

  /** Event id to the number of places still free; may be negative after manual assignments. */
  type Remaining = map<int, int>

  datatype AllocationResult = AllocationResult(
    assignments: Assignments,
    sonderliste: seq<int>,
    stats: AllocationStats)

  /** The two maps the engine updates in place. */
  datatype Ledger = Ledger(remaining: Remaining, assignments: Assignments)

  // ---------------------------------------------------------------------------
  // tryAssign
  // ---------------------------------------------------------------------------

  /** An assignment to `eventId` succeeds iff the event is known and has a free place. */
  predicate HasRoom(remaining: Remaining, eventId: int) {
    eventId in remaining && remaining[eventId] > 0
  }

  /**
   * `tryAssign`: take one place of `eventId` for `studentId` if there is one.
   * The source updates both maps in place; here the updated maps are returned.
   */
  method TryAssign(eventId: int, studentId: int, remaining: Remaining, assignments: Assignments)
    returns (ok: bool, remainingAfter: Remaining, assignmentsAfter: Assignments)
    ensures ok <==> HasRoom(remaining, eventId)
    ensures ok ==> remainingAfter == remaining[eventId := remaining[eventId] - 1]
    ensures ok ==> assignmentsAfter == assignments[studentId := Some(eventId)]
    ensures !ok ==> remainingAfter == remaining && assignmentsAfter == assignments
  {
    if eventId !in remaining || remaining[eventId] <= 0 {
      return false, remaining, assignments;
    }
    var capacity := remaining[eventId];
    remainingAfter := remaining[eventId := capacity - 1];
    assignmentsAfter := assignments[studentId := Some(eventId)];
    ok := true;
  }

  // ---------------------------------------------------------------------------
  // Specification of the phases of `allocate`
  // ---------------------------------------------------------------------------

  /** The capacity tracker: each event's id mapped to its capacity, a later duplicate id winning. */
  function Capacities(events: seq<Event>): (r: Remaining)
    ensures r.Keys == set e | e in events :: e.id
  {
    if events == [] then map[]
    else
      var e := events[|events| - 1];
      Capacities(events[..|events| - 1])[e.id := e.capacity]
  }

  /** A student whose manual assignment is kept rather than drawn again. */
  predicate Preserved(s: Student, preserveManual: bool) {
    preserveManual && s.assignmentType == Some(Manual)
  }

  /** Charge one place of a preserved student's event, if it names a known event; no lower bound. */
  function Charge(remaining: Remaining, held: Option<int>): Remaining {
    match held
    case None => remaining
    case Some(e) => if e in remaining then remaining[e := remaining[e] - 1] else remaining
  }

  /** The state after the partition loop: the ledger, the ids to draw for, and the id lookup. */
  datatype Setup = Setup(ledger: Ledger, toProcess: seq<int>, studentMap: map<int, Student>)

  /** The partition loop over `students`, starting from the capacity tracker `capacities`. */
  function Partition(students: seq<Student>, preserveManual: bool, capacities: Remaining): (r: Setup)
    ensures forall id | id in r.toProcess :: id in r.studentMap
    ensures r.studentMap.Keys == set s | s in students :: s.id
    ensures r.ledger.remaining.Keys == capacities.Keys
  {
    if students == [] then Setup(Ledger(capacities, map[]), [], map[])
    else
      var prev := Partition(students[..|students| - 1], preserveManual, capacities);
      var s := students[|students| - 1];
      var studentMap := prev.studentMap[s.id := s];
      if Preserved(s, preserveManual) then
        var ledger := Ledger(
          Charge(prev.ledger.remaining, s.assignedEventId),
          prev.ledger.assignments[s.id := s.assignedEventId]);
        Setup(ledger, prev.toProcess, studentMap)
      else
        Setup(prev.ledger, prev.toProcess + [s.id], studentMap)
  }

  /** The three rounds of the lottery. */
  datatype Rank = First | Second | Third

  /** The preference a round serves; the first is always present, the others may be null. */
  function Preference(s: Student, rank: Rank): Option<int> {
    match rank
    case First => Some(s.priority1Id)
    case Second => s.priority2Id
    case Third => s.priority3Id
  }

  /** One student's turn in a round: try their preference of this rank, or be kept for the next round. */
  function Visit(rank: Rank, id: int, student: Student, ledger: Ledger, left: seq<int>): (r: (Ledger, seq<int>))
    ensures r.0.remaining.Keys == ledger.remaining.Keys
  {
    match Preference(student, rank)
    case None => (ledger, left + [id])
    case Some(e) =>
      if HasRoom(ledger.remaining, e) then
        (Ledger(ledger.remaining[e := ledger.remaining[e] - 1], ledger.assignments[id := Some(e)]), left)
      else
        (ledger, left + [id])
  }

  /**
   * One round over `order`: each student tries their preference of this rank;
   * those without one, or whose event is full, are kept, in order, for the next round.
   */
  function Round(rank: Rank, order: seq<int>, studentMap: map<int, Student>, ledger: Ledger): (r: (Ledger, seq<int>))
    requires forall id | id in order :: id in studentMap
    ensures forall id | id in r.1 :: id in order
    ensures r.0.remaining.Keys == ledger.remaining.Keys
  {
    if order == [] then (ledger, [])
    else
      var prev := Round(rank, order[..|order| - 1], studentMap, ledger);
      var id := order[|order| - 1];
      Visit(rank, id, studentMap[id], prev.0, prev.1)
  }

  /** Put every id of `ids` on the waitlist. */
  function Unassign(assignments: Assignments, ids: seq<int>): (r: Assignments)
    ensures r.Keys == assignments.Keys + set id | id in ids
  {
    if ids == [] then assignments
    else Unassign(assignments, ids[..|ids| - 1])[ids[|ids| - 1] := None]
  }

  /** The bucket `calculateStats` puts a student in, given what the assignments map holds for them. */
  datatype Outcome = Waitlisted | GotFirst | GotSecond | GotThird | Elsewhere

  /** What `assignments.get(id)` yields, absence read as the waitlist. */
  function Lookup(assignments: Assignments, id: int): Option<int> {
    if id in assignments then assignments[id] else None
  }

  /** The first matching rank wins; an event matching no preference lands in no counter. */
  function Classify(s: Student, held: Option<int>): (r: Outcome)
    ensures r == Waitlisted <==> held.None?
    ensures r == GotFirst <==> held == Some(s.priority1Id)
    ensures r == GotSecond <==> held.Some? && held.value != s.priority1Id && held == s.priority2Id
    ensures r == GotThird <==> held.Some? && held.value != s.priority1Id && held != s.priority2Id && held == s.priority3Id
  {
    match held
    case None => Waitlisted
    case Some(e) =>
      if e == s.priority1Id then GotFirst
      else if Some(e) == s.priority2Id then GotSecond
      else if Some(e) == s.priority3Id then GotThird
      else Elsewhere
  }

  /** The stats record with one more student counted in `outcome`'s counter. */
  function Count(stats: AllocationStats, outcome: Outcome): AllocationStats {
    match outcome
    case Waitlisted => stats.(sonderliste := stats.sonderliste + 1)
    case GotFirst => stats.(got1stChoice := stats.got1stChoice + 1)
    case GotSecond => stats.(got2ndChoice := stats.got2ndChoice + 1)
    case GotThird => stats.(got3rdChoice := stats.got3rdChoice + 1)
    case Elsewhere => stats
  }

  /** The counters after the loop over `students`, starting from `total` and four zeros. */
  function Tally(assignments: Assignments, students: seq<Student>, total: int): (r: AllocationStats)
    ensures r.total == total
    ensures 0 <= r.got1stChoice && 0 <= r.got2ndChoice && 0 <= r.got3rdChoice && 0 <= r.sonderliste
    ensures r.got1stChoice + r.got2ndChoice + r.got3rdChoice + r.sonderliste <= |students|
  {
    if students == [] then AllocationStats(total, 0, 0, 0, 0)
    else
      var s := students[|students| - 1];
      Count(Tally(assignments, students[..|students| - 1], total), Classify(s, Lookup(assignments, s.id)))
  }

  /** `calculateStats(assignments, students)`. */
  function StatsOf(assignments: Assignments, students: seq<Student>): (r: AllocationStats)
    ensures r.total == |students|
    ensures r.got1stChoice + r.got2ndChoice + r.got3rdChoice + r.sonderliste <= r.total
  {
    Tally(assignments, students, |students|)
  }

  /** The generator state `mulberry32(hashSeed(seed))` starts from. */
  function SeedState(seed: string): bv32 {
    ToUint32(HashFold(CodeUnits(seed))) as bv32
  }

  /** One round of the lottery: shuffle the waiting ids with the generator at `state`, then run the round over that order. */
  function DrawRound(rank: Rank, ids: seq<int>, studentMap: map<int, Student>, ledger: Ledger, state: bv32): (r: (Ledger, seq<int>, bv32))
    requires forall id | id in ids :: id in studentMap
    ensures forall id | id in r.1 :: id in ids
    ensures r.0.remaining.Keys == ledger.remaining.Keys
  {
    var (order, next) := Shuffled(ids, state);
    SameMembers(ids, order);
    var (after, left) := Round(rank, order, studentMap, ledger);
    (after, left, next)
  }

  /** The three rounds, each over the ids the previous one left, all drawing from one generator. */
  function Lottery(setup: Setup, state: bv32): (r: (Ledger, seq<int>))
    requires forall id | id in setup.toProcess :: id in setup.studentMap
    ensures forall id | id in r.1 :: id in setup.toProcess
    ensures r.0.remaining.Keys == setup.ledger.remaining.Keys
  {
    var (ledger1, left1, state1) := DrawRound(First, setup.toProcess, setup.studentMap, setup.ledger, state);
    var (ledger2, left2, state2) := DrawRound(Second, left1, setup.studentMap, ledger1, state1);
    var (ledger3, left3, _) := DrawRound(Third, left2, setup.studentMap, ledger2, state2);
    (ledger3, left3)
  }

  /** `allocate(input)`: partition, three rounds from the seeded generator, waitlist, stats. */
  function Allocation(input: AllocationInput): AllocationResult {
    var setup := Partition(input.students, input.preserveManual, Capacities(input.events));
    var (ledger, sonderliste) := Lottery(setup, SeedState(input.seed));
    var assignments := Unassign(ledger.assignments, sonderliste);
    AllocationResult(assignments, sonderliste, StatsOf(assignments, input.students))
  }

  // ---------------------------------------------------------------------------
  // The engine's loops
  // ---------------------------------------------------------------------------

  /** The loop of one round: each id in `order` tries its preference of rank `rank`. */
  method RunRound(rank: Rank, order: seq<int>, studentMap: map<int, Student>, ledger: Ledger)
    returns (after: Ledger, left: seq<int>)
    requires forall id | id in order :: id in studentMap
    ensures (after, left) == Round(rank, order, studentMap, ledger)
  {
    var remaining, assignments := ledger.remaining, ledger.assignments;
    left := [];
    var i := 0;
    while i < |order|
      invariant 0 <= i <= |order|
      invariant (Ledger(remaining, assignments), left) == Round(rank, order[..i], studentMap, ledger)
    {
      var studentId := order[i];
      var student := studentMap[studentId];
      var placed := false;
      match Preference(student, rank) {
        case None =>
        case Some(eventId) =>
          placed, remaining, assignments := TryAssign(eventId, studentId, remaining, assignments);
      }
      if !placed {
        left := left + [studentId];
      }
      assert order[..i + 1][..i] == order[..i];
      i := i + 1;
    }
    assert order[..i] == order;
    after := Ledger(remaining, assignments);
  }

  /** `calculateStats`: one pass over the students, bumping the counter of each one's outcome. */
  method CalculateStats(assignments: Assignments, students: seq<Student>) returns (stats: AllocationStats)
    ensures stats == StatsOf(assignments, students)
  {
    stats := AllocationStats(|students|, 0, 0, 0, 0);
    var i := 0;
    while i < |students|
      invariant 0 <= i <= |students|
      invariant stats == Tally(assignments, students[..i], |students|)
    {
      var student := students[i];
      var assignedEventId := Lookup(assignments, student.id);
      match assignedEventId {
        case None =>
          stats := stats.(sonderliste := stats.sonderliste + 1);
        case Some(e) =>
          if e == student.priority1Id {
            stats := stats.(got1stChoice := stats.got1stChoice + 1);
          } else if Some(e) == student.priority2Id {
            stats := stats.(got2ndChoice := stats.got2ndChoice + 1);
          } else if Some(e) == student.priority3Id {
            stats := stats.(got3rdChoice := stats.got3rdChoice + 1);
          }
      }
      assert students[..i + 1][..i] == students[..i];
      i := i + 1;
    }
    assert students[..i] == students;
  }

  /** The partition loop: record every student, keep preserved manual assignments, queue the rest. */
  method PartitionStudents(students: seq<Student>, preserveManual: bool, capacities: Remaining) returns (setup: Setup)
    ensures setup == Partition(students, preserveManual, capacities)
  {
    var remaining := capacities;
    var assignments: Assignments := map[];
    var toProcess: seq<int> := [];
    var studentMap: map<int, Student> := map[];
    var i := 0;
    while i < |students|
      invariant 0 <= i <= |students|
      invariant Setup(Ledger(remaining, assignments), toProcess, studentMap) == Partition(students[..i], preserveManual, capacities)
    {
      var student := students[i];
      studentMap := studentMap[student.id := student];
      if preserveManual && student.assignmentType == Some(Manual) {
        assignments := assignments[student.id := student.assignedEventId];
        if student.assignedEventId.Some? {
          var eventId := student.assignedEventId.value;
          if eventId in remaining {
            var currentCapacity := remaining[eventId];
            remaining := remaining[eventId := currentCapacity - 1];
          }
        }
      } else {
        toProcess := toProcess + [student.id];
      }
      assert students[..i + 1][..i] == students[..i];
      i := i + 1;
    }
    assert students[..i] == students;
    setup := Setup(Ledger(remaining, assignments), toProcess, studentMap);
  }

  /** The capacity loop: `remaining.set(event.id, event.capacity)` for each event in turn. */
  method CapacityTracker(events: seq<Event>) returns (remaining: Remaining)
    ensures remaining == Capacities(events)
  {
    remaining := map[];
    var k := 0;
    while k < |events|
      invariant 0 <= k <= |events|
      invariant remaining == Capacities(events[..k])
    {
      var event := events[k];
      remaining := remaining[event.id := event.capacity];
      assert events[..k + 1][..k] == events[..k];
      k := k + 1;
    }
    assert events[..k] == events;
  }

  /** One round: shuffle a copy of the waiting ids, then try each one's preference of this rank in that order. */
  method LotteryRound(rng: Mulberry32, rank: Rank, ids: seq<int>, studentMap: map<int, Student>, ledger: Ledger)
    returns (after: Ledger, left: seq<int>)
    requires forall id | id in ids :: id in studentMap
    modifies rng
    ensures (after, left, rng.state) == DrawRound(rank, ids, studentMap, ledger, old(rng.state))
  {
    var order := Shuffle(rng, ids);
    SameMembers(ids, order);
    after, left := RunRound(rank, order, studentMap, ledger);
  }

  /** The waitlist loop: every id still unassigned is mapped to null. */
  method Waitlist(assignments: Assignments, sonderliste: seq<int>) returns (result: Assignments)
    ensures result == Unassign(assignments, sonderliste)
  {
    result := assignments;
    var i := 0;
    while i < |sonderliste|
      invariant 0 <= i <= |sonderliste|
      invariant result == Unassign(assignments, sonderliste[..i])
    {
      result := result[sonderliste[i] := None];
      assert sonderliste[..i + 1][..i] == sonderliste[..i];
      i := i + 1;
    }
    assert sonderliste[..i] == sonderliste;
  }

  /** `allocate(input)`: the same input always gives the same result. */
  method Allocate(input: AllocationInput) returns (result: AllocationResult)
    ensures result == Allocation(input)
  {
    var seed := HashSeed(input.seed);
    var rng := new Mulberry32(seed);
    var remaining := CapacityTracker(input.events);
    var setup := PartitionStudents(input.students, input.preserveManual, remaining);
    ghost var state0 := rng.state;
    assert state0 == SeedState(input.seed);
    var ledger1, afterRound1 := LotteryRound(rng, First, setup.toProcess, setup.studentMap, setup.ledger);
    ghost var state1 := rng.state;
    var ledger2, afterRound2 := LotteryRound(rng, Second, afterRound1, setup.studentMap, ledger1);
    ghost var state2 := rng.state;
    var ledger3, afterRound3 := LotteryRound(rng, Third, afterRound2, setup.studentMap, ledger2);
    assert (ledger3, afterRound3) == Lottery(setup, state0) by {
      assert (ledger1, afterRound1, state1) == DrawRound(First, setup.toProcess, setup.studentMap, setup.ledger, state0);
      assert (ledger2, afterRound2, state2) == DrawRound(Second, afterRound1, setup.studentMap, ledger1, state1);
    }
    var sonderliste := afterRound3;
    var assignments := Waitlist(ledger3.assignments, sonderliste);
    var stats := CalculateStats(assignments, input.students);
    result := AllocationResult(assignments, sonderliste, stats);
  }
}
