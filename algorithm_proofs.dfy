/**
 * Properties of the allocation engine, proved about the specification
 * functions of module Algorithm (which `Allocate` is proved to compute).
 *
 * The engine does not check that student ids are unique; the properties
 * that depend on it say so with `UniqueIds`.
 */
module AlgorithmProofs {
  import opened Wrappers
  import opened Random
  import opened Algorithm

  /** No two registrants share an id. */
  ghost predicate UniqueIds(students: seq<Student>) {
    forall i, j | 0 <= i < j < |students| :: students[i].id != students[j].id
  }

  /** `a` and `b` agree about `id`: both lack it or both map it to the same value. */
  ghost predicate SameAt(a: Assignments, b: Assignments, id: int) {
    (id in a <==> id in b) && (id in a ==> a[id] == b[id])
  }

  /** The ids in `ids` that `assignments` sends to event `e`. */
  ghost function AssignedTo(ids: seq<int>, assignments: Assignments, e: int): set<int> {
    set id | id in ids && id in assignments && assignments[id] == Some(e)
  }

  /** The tracker holds, for each event id, the capacity of the last event with that id. */
  lemma {:induction false} CapacitiesLastWins(events: seq<Event>, i: int)
    requires 0 <= i < |events|
    requires forall j | i < j < |events| :: events[j].id != events[i].id
    ensures Capacities(events)[events[i].id] == events[i].capacity
  {
    if i < |events| - 1 {
      CapacitiesLastWins(events[..|events| - 1], i);
    }
  }

  /** The number of preserved manual assignments to event `e`. */
  function ManualCount(students: seq<Student>, preserveManual: bool, e: int): (r: nat)
    ensures r <= |students|
  {
    if students == [] then 0
    else
      var s := students[|students| - 1];
      ManualCount(students[..|students| - 1], preserveManual, e)
        + (if Preserved(s, preserveManual) && s.assignedEventId == Some(e) then 1 else 0)
  }

  /** The ids of all students, in input order. */
  function Ids(students: seq<Student>): (r: seq<int>)
    ensures |r| == |students|
  {
    if students == [] then [] else Ids(students[..|students| - 1]) + [students[|students| - 1].id]
  }

  // ---------------------------------------------------------------------------
  // The partition loop
  // ---------------------------------------------------------------------------

  /** A distinct sequence stays distinct without its last element, which does not occur before it. */
  lemma DistinctInit(s: seq<int>)
    requires s != [] && Distinct(s)
    ensures Distinct(s[..|s| - 1]) && s[|s| - 1] !in s[..|s| - 1]
  {
    var init, last := s[..|s| - 1], s[|s| - 1];
    assert s == init + [last];
    assert multiset(s) == multiset(init) + multiset{last};
    forall x
      ensures multiset(init)[x] <= 1
    {
      assert multiset(init)[x] <= multiset(s)[x];
    }
    assert multiset(s)[last] == multiset(init)[last] + 1;
  }

  /** Appending an element that does not occur keeps a sequence distinct. */
  lemma DistinctSnoc(s: seq<int>, x: int)
    requires Distinct(s) && x !in s
    ensures Distinct(s + [x])
  {
    assert multiset(s + [x]) == multiset(s) + multiset{x};
    assert multiset(s)[x] == 0;
  }

  /** With unique ids, the last student's id is not used by any earlier student. */
  lemma LastIdFresh(students: seq<Student>)
    requires UniqueIds(students) && students != []
    ensures UniqueIds(students[..|students| - 1])
    ensures forall t | t in students[..|students| - 1] :: t.id != students[|students| - 1].id
  {
    var n := |students| - 1;
    forall t | t in students[..n]
      ensures t.id != students[n].id
    {
      var k :| 0 <= k < n && students[..n][k] == t;
      assert students[k] == t;
    }
  }

  /** With unique ids, looking a queued or listed id up in the student map gives back that student. */
  lemma {:induction false} PartitionFindsStudents(students: seq<Student>, preserveManual: bool, capacities: Remaining)
    requires UniqueIds(students)
    ensures var r := Partition(students, preserveManual, capacities);
      forall s | s in students :: r.studentMap[s.id] == s
  {
    if students != [] {
      var n := |students| - 1;
      LastIdFresh(students);
      PartitionFindsStudents(students[..n], preserveManual, capacities);
      assert students == students[..n] + [students[n]];
    }
  }

  /** With unique ids, every preserved manual assignment is recorded exactly as given. */
  lemma {:induction false} PartitionKeepsManual(students: seq<Student>, preserveManual: bool, capacities: Remaining)
    requires UniqueIds(students)
    ensures var r := Partition(students, preserveManual, capacities);
      forall s | s in students && Preserved(s, preserveManual) ::
        s.id in r.ledger.assignments && r.ledger.assignments[s.id] == s.assignedEventId
  {
    if students != [] {
      var n := |students| - 1;
      LastIdFresh(students);
      PartitionKeepsManual(students[..n], preserveManual, capacities);
      assert students == students[..n] + [students[n]];
    }
  }

  /** The partition only records assignments of listed students, and queues exactly the students it does not keep. */
  lemma {:induction false} PartitionQueue(students: seq<Student>, preserveManual: bool, capacities: Remaining)
    ensures var r := Partition(students, preserveManual, capacities);
      && (forall id | id in r.ledger.assignments :: id in r.studentMap)
      && (forall s | s in students && !Preserved(s, preserveManual) :: s.id in r.toProcess)
  {
    if students != [] {
      var n := |students| - 1;
      PartitionQueue(students[..n], preserveManual, capacities);
      assert students == students[..n] + [students[n]];
    }
  }

  /** With unique ids, the queue holds each id once, and none of them has an assignment yet. */
  lemma {:induction false} PartitionQueueFresh(students: seq<Student>, preserveManual: bool, capacities: Remaining)
    requires UniqueIds(students)
    ensures var r := Partition(students, preserveManual, capacities);
      Distinct(r.toProcess) && forall id | id in r.toProcess :: id !in r.ledger.assignments
  {
    if students != [] {
      var n := |students| - 1;
      var s := students[n];
      LastIdFresh(students);
      PartitionQueueFresh(students[..n], preserveManual, capacities);
      PartitionQueue(students[..n], preserveManual, capacities);
      var prev := Partition(students[..n], preserveManual, capacities);
      assert s.id !in prev.studentMap;
      assert s.id !in prev.toProcess && s.id !in prev.ledger.assignments;
      if !Preserved(s, preserveManual) {
        DistinctSnoc(prev.toProcess, s.id);
      }
    }
  }

  /** With unique ids, a preserved student is never queued. */
  lemma {:induction false} PartitionSkipsPreserved(students: seq<Student>, preserveManual: bool, capacities: Remaining)
    requires UniqueIds(students)
    ensures var r := Partition(students, preserveManual, capacities);
      forall s | s in students && Preserved(s, preserveManual) :: s.id !in r.toProcess
  {
    if students != [] {
      var n := |students| - 1;
      var s := students[n];
      LastIdFresh(students);
      PartitionSkipsPreserved(students[..n], preserveManual, capacities);
      var prev := Partition(students[..n], preserveManual, capacities);
      assert s.id !in prev.studentMap;
      assert students == students[..n] + [s];
    }
  }

  /** With unique ids, every queued id belongs to a student who is not preserved. */
  lemma PartitionQueuesUnpreserved(students: seq<Student>, preserveManual: bool, capacities: Remaining)
    requires UniqueIds(students)
    ensures var r := Partition(students, preserveManual, capacities);
      forall id | id in r.toProcess :: !Preserved(r.studentMap[id], preserveManual)
  {
    var r := Partition(students, preserveManual, capacities);
    PartitionFindsStudents(students, preserveManual, capacities);
    PartitionSkipsPreserved(students, preserveManual, capacities);
    forall id | id in r.toProcess
      ensures !Preserved(r.studentMap[id], preserveManual)
    {
      assert id in r.studentMap;
      var s :| s in students && s.id == id;
      assert r.studentMap[id] == s;
    }
  }

  /** Each event's remaining capacity after the partition is its capacity less its preserved manual assignments. */
  lemma {:induction false} PartitionCharges(students: seq<Student>, preserveManual: bool, capacities: Remaining)
    ensures var r := Partition(students, preserveManual, capacities);
      forall e | e in capacities :: r.ledger.remaining[e] == capacities[e] - ManualCount(students, preserveManual, e)
  {
    if students != [] {
      PartitionCharges(students[..|students| - 1], preserveManual, capacities);
    }
  }

  /** The ids of the students the lottery draws for, in input order. */
  function Queue(students: seq<Student>, preserveManual: bool): (r: seq<int>)
    ensures |r| <= |students|
  {
    if students == [] then []
    else
      var s := students[|students| - 1];
      Queue(students[..|students| - 1], preserveManual) + if Preserved(s, preserveManual) then [] else [s.id]
  }

  /** The partition queues exactly the students it does not keep, in input order. */
  lemma {:induction false} PartitionQueueIs(students: seq<Student>, preserveManual: bool, capacities: Remaining)
    ensures Partition(students, preserveManual, capacities).toProcess == Queue(students, preserveManual)
  {
    if students != [] {
      PartitionQueueIs(students[..|students| - 1], preserveManual, capacities);
    }
  }

  /** Without `preserveManual`, nobody is kept: every student is queued in input order and no capacity is charged. */
  lemma {:induction false} NothingPreserved(students: seq<Student>, capacities: Remaining)
    ensures var r := Partition(students, false, capacities);
      r.toProcess == Ids(students) && r.ledger == Ledger(capacities, map[])
  {
    if students != [] {
      NothingPreserved(students[..|students| - 1], capacities);
    }
  }

  // ---------------------------------------------------------------------------
  // One round
  // ---------------------------------------------------------------------------

  /** A turn either keeps the student for the next round, unchanged, or gives them their preference and takes one place of it. */
  lemma VisitCases(rank: Rank, id: int, student: Student, ledger: Ledger, left: seq<int>)
    ensures var r := Visit(rank, id, student, ledger, left);
      var p := Preference(student, rank);
      || (r == (ledger, left + [id]) && (p.None? || !HasRoom(ledger.remaining, p.value)))
      || (&& p.Some? && HasRoom(ledger.remaining, p.value) && r.1 == left
          && r.0.assignments == ledger.assignments[id := p]
          && r.0.remaining == ledger.remaining[p.value := ledger.remaining[p.value] - 1])
  {
  }

  /** The ids a round leaves are drawn from its order: as a multiset, a part of it. */
  lemma {:induction false} RoundLeavesPart(rank: Rank, order: seq<int>, studentMap: map<int, Student>, ledger: Ledger)
    requires forall id | id in order :: id in studentMap
    ensures multiset(Round(rank, order, studentMap, ledger).1) <= multiset(order)
  {
    if order != [] {
      var n := |order| - 1;
      var prev := Round(rank, order[..n], studentMap, ledger);
      RoundLeavesPart(rank, order[..n], studentMap, ledger);
      VisitCases(rank, order[n], studentMap[order[n]], prev.0, prev.1);
      assert order == order[..n] + [order[n]];
    }
  }

  /** A part of a distinct sequence is distinct. */
  lemma DistinctPart(a: seq<int>, b: seq<int>)
    requires multiset(a) <= multiset(b) && Distinct(b)
    ensures Distinct(a)
  {
    forall x
      ensures multiset(a)[x] <= 1
    {
      assert multiset(a)[x] <= multiset(b)[x];
    }
  }

  /**
   * Over an order without repeats, a round leaves every id outside the order
   * and every id it leaves as they were, and gives every other id of the order
   * its preference of this rank; an id with no preference of this rank is left.
   */
  lemma {:induction false} RoundEffect(rank: Rank, order: seq<int>, studentMap: map<int, Student>, ledger: Ledger)
    requires forall id | id in order :: id in studentMap
    requires Distinct(order)
    ensures var r := Round(rank, order, studentMap, ledger);
      && (forall id | id !in order :: SameAt(r.0.assignments, ledger.assignments, id))
      && (forall id | id in r.1 :: SameAt(r.0.assignments, ledger.assignments, id))
      && (forall id | id in order && id !in r.1 ::
            id in r.0.assignments && r.0.assignments[id] == Preference(studentMap[id], rank) && r.0.assignments[id].Some?)
      && (forall id | id in order && Preference(studentMap[id], rank).None? :: id in r.1)
  {
    if order != [] {
      var n := |order| - 1;
      var init, x := order[..n], order[n];
      DistinctInit(order);
      RoundEffect(rank, init, studentMap, ledger);
      RoundLeavesPart(rank, init, studentMap, ledger);
      var prev := Round(rank, init, studentMap, ledger);
      VisitCases(rank, x, studentMap[x], prev.0, prev.1);
      assert x !in prev.1 by {
        assert multiset(prev.1)[x] <= multiset(init)[x] == 0;
      }
      assert SameAt(prev.0.assignments, ledger.assignments, x);
      assert order == init + [x];
    }
  }

  /**
   * Going from `before` to `after`, each event lost exactly as many places as
   * ids of `ids` were sent to it, and its remaining capacity did not go below
   * zero unless it already was, in which case it did not change.
   */
  ghost predicate Accounted(before: Ledger, ids: seq<int>, after: Ledger) {
    forall e | e in before.remaining ::
      && e in after.remaining
      && Floor0(before.remaining[e]) <= after.remaining[e] <= before.remaining[e]
      && before.remaining[e] - after.remaining[e] == |AssignedTo(ids, after.assignments, e)|
  }

  /** `x` when it is negative, else 0: the lowest a remaining capacity starting at `x` can reach. */
  function Floor0(x: int): int {
    if x < 0 then x else 0
  }

  /**
   * Over an order without repeats and with no assignments yet, a round takes
   * from each event exactly as many places as it assigns students to it, and
   * never takes a place of an event that has none left: a remaining capacity
   * that was not negative stays not negative, and one that was negative is not
   * touched.
   */
  lemma {:induction false} RoundCapacity(rank: Rank, order: seq<int>, studentMap: map<int, Student>, ledger: Ledger)
    requires forall id | id in order :: id in studentMap
    requires Distinct(order)
    requires forall id | id in order :: id !in ledger.assignments
    ensures var r := Round(rank, order, studentMap, ledger);
      forall e | e in ledger.remaining ::
        && Floor0(ledger.remaining[e]) <= r.0.remaining[e] <= ledger.remaining[e]
        && ledger.remaining[e] - r.0.remaining[e] == |AssignedTo(order, r.0.assignments, e)|
  {
    if order != [] {
      var n := |order| - 1;
      var init, x := order[..n], order[n];
      DistinctInit(order);
      RoundCapacity(rank, init, studentMap, ledger);
      RoundEffect(rank, init, studentMap, ledger);
      var prev := Round(rank, init, studentMap, ledger);
      var r := Visit(rank, x, studentMap[x], prev.0, prev.1);
      VisitCases(rank, x, studentMap[x], prev.0, prev.1);
      assert x !in prev.0.assignments by {
        assert SameAt(prev.0.assignments, ledger.assignments, x);
      }
      assert order == init + [x];
      forall e | e in ledger.remaining
        ensures Floor0(ledger.remaining[e]) <= r.0.remaining[e] <= ledger.remaining[e]
        ensures ledger.remaining[e] - r.0.remaining[e] == |AssignedTo(order, r.0.assignments, e)|
      {
        CapacityStep(init, x, Preference(studentMap[x], rank), prev.0, r.0, e, ledger.remaining[e]);
      }
    }
  }

  /** One turn of a round keeps the capacity accounting of `RoundCapacity` for event `e`. */
  lemma CapacityStep(init: seq<int>, x: int, p: Option<int>, before: Ledger, after: Ledger, e: int, base: int)
    requires x !in init && x !in before.assignments && e in before.remaining
    requires Floor0(base) <= before.remaining[e] <= base
    requires base - before.remaining[e] == |AssignedTo(init, before.assignments, e)|
    requires || after == before
             || (&& p.Some? && HasRoom(before.remaining, p.value)
                 && after.assignments == before.assignments[x := p]
                 && after.remaining == before.remaining[p.value := before.remaining[p.value] - 1])
    ensures Floor0(base) <= after.remaining[e] <= base
    ensures base - after.remaining[e] == |AssignedTo(init + [x], after.assignments, e)|
  {
    if after == before {
      assert AssignedTo(init + [x], after.assignments, e) == AssignedTo(init, before.assignments, e);
    } else if p.value == e {
      assert AssignedTo(init + [x], after.assignments, e) == AssignedTo(init, before.assignments, e) + {x};
    } else {
      assert AssignedTo(init + [x], after.assignments, e) == AssignedTo(init, before.assignments, e);
    }
  }

  // ---------------------------------------------------------------------------
  // A drawn round and the lottery
  // ---------------------------------------------------------------------------

  /** Two sequences with the same members pick out the same ids of an event. */
  lemma AssignedToSameMembers(a: seq<int>, b: seq<int>, assignments: Assignments, e: int)
    requires forall x :: x in a <==> x in b
    ensures AssignedTo(a, assignments, e) == AssignedTo(b, assignments, e)
  {
    forall id
      ensures id in AssignedTo(a, assignments, e) <==> id in AssignedTo(b, assignments, e)
    {
      assert id in a <==> id in b;
    }
  }

  /**
   * `RoundEffect` for a round over a shuffle of `ids`: the shuffle changes the
   * order of the turns, not who takes part.
   */
  lemma DrawRoundEffect(rank: Rank, ids: seq<int>, studentMap: map<int, Student>, ledger: Ledger, state: bv32)
    requires forall id | id in ids :: id in studentMap
    requires Distinct(ids)
    ensures var r := DrawRound(rank, ids, studentMap, ledger, state);
      && multiset(r.1) <= multiset(ids)
      && (forall id | id !in ids :: SameAt(r.0.assignments, ledger.assignments, id))
      && (forall id | id in r.1 :: SameAt(r.0.assignments, ledger.assignments, id))
      && (forall id | id in ids && id !in r.1 ::
            id in r.0.assignments && r.0.assignments[id] == Preference(studentMap[id], rank) && r.0.assignments[id].Some?)
      && (forall id | id in ids && Preference(studentMap[id], rank).None? :: id in r.1)
  {
    var order := Shuffled(ids, state).0;
    SameMembers(ids, order);
    DistinctPart(order, ids);
    RoundLeavesPart(rank, order, studentMap, ledger);
    RoundEffect(rank, order, studentMap, ledger);
  }

  /** `RoundCapacity` for a round over a shuffle of `ids`. */
  lemma DrawRoundCapacity(rank: Rank, ids: seq<int>, studentMap: map<int, Student>, ledger: Ledger, state: bv32)
    requires forall id | id in ids :: id in studentMap
    requires Distinct(ids)
    requires forall id | id in ids :: id !in ledger.assignments
    ensures Accounted(ledger, ids, DrawRound(rank, ids, studentMap, ledger, state).0)
  {
    var order := Shuffled(ids, state).0;
    var r := DrawRound(rank, ids, studentMap, ledger, state);
    SameMembers(ids, order);
    DistinctPart(order, ids);
    RoundCapacity(rank, order, studentMap, ledger);
    forall e | e in ledger.remaining
      ensures ledger.remaining[e] - r.0.remaining[e] == |AssignedTo(ids, r.0.assignments, e)|
    {
      AssignedToSameMembers(order, ids, r.0.assignments, e);
    }
  }

  /**
   * The ids of `all` sent to `e` after a later round over `later` are those sent
   * there before it, together with, apart from them, those the later round sent there.
   */
  lemma AssignedToSplit(all: seq<int>, later: seq<int>, before: Assignments, after: Assignments, e: int)
    requires forall id | id in later :: id in all && id !in before
    requires forall id | id in all && id !in later :: SameAt(after, before, id)
    ensures AssignedTo(all, after, e) == AssignedTo(all, before, e) + AssignedTo(later, after, e)
    ensures AssignedTo(all, before, e) * AssignedTo(later, after, e) == {}
    ensures |AssignedTo(all, after, e)| == |AssignedTo(all, before, e)| + |AssignedTo(later, after, e)|
  {
    var whole, earlier, added := AssignedTo(all, after, e), AssignedTo(all, before, e), AssignedTo(later, after, e);
    forall id
      ensures id in whole <==> id in earlier + added
      ensures !(id in earlier && id in added)
    {
      if id in later {
        assert id in all && id !in before;
        assert id !in earlier;
      } else if id in all {
        assert SameAt(after, before, id);
        assert id !in added;
      } else {
        assert id !in whole && id !in earlier && id !in added;
      }
    }
    assert whole == earlier + added;
    assert earlier * added == {};
  }

  /** `held` is an event the student asked for, in one of the three ranks. */
  ghost predicate OneOfPreferences(s: Student, held: Option<int>) {
    held.Some? && (held == Preference(s, First) || held == Preference(s, Second) || held == Preference(s, Third))
  }

  /**
   * Over a queue without repeats whose ids hold no assignment yet, the lottery
   * leaves every other id as it was, leaves the ids it returns unassigned, and
   * gives every other id of the queue an event it asked for.
   */
  lemma LotteryEffect(setup: Setup, state: bv32)
    requires forall id | id in setup.toProcess :: id in setup.studentMap
    requires Distinct(setup.toProcess)
    requires forall id | id in setup.toProcess :: id !in setup.ledger.assignments
    ensures var r := Lottery(setup, state);
      && multiset(r.1) <= multiset(setup.toProcess)
      && (forall id | id !in setup.toProcess :: SameAt(r.0.assignments, setup.ledger.assignments, id))
      && (forall id | id in r.1 :: id !in r.0.assignments)
      && (forall id | id in setup.toProcess && id !in r.1 ::
            id in r.0.assignments && OneOfPreferences(setup.studentMap[id], r.0.assignments[id]))
  {
    var queue, studentMap := setup.toProcess, setup.studentMap;
    var r1 := DrawRound(First, queue, studentMap, setup.ledger, state);
    DrawRoundEffect(First, queue, studentMap, setup.ledger, state);
    DistinctPart(r1.1, queue);
    var r2 := DrawRound(Second, r1.1, studentMap, r1.0, r1.2);
    DrawRoundEffect(Second, r1.1, studentMap, r1.0, r1.2);
    DistinctPart(r2.1, r1.1);
    var r3 := DrawRound(Third, r2.1, studentMap, r2.0, r2.2);
    DrawRoundEffect(Third, r2.1, studentMap, r2.0, r2.2);
    assert Lottery(setup, state) == (r3.0, r3.1);
    forall id | id in queue && id !in r3.1
      ensures id in r3.0.assignments && OneOfPreferences(studentMap[id], r3.0.assignments[id])
    {
      if id !in r1.1 {
        assert SameAt(r2.0.assignments, r1.0.assignments, id);
      } else if id !in r2.1 {
        assert SameAt(r3.0.assignments, r2.0.assignments, id);
      }
    }
  }

  /**
   * Over a queue without repeats whose ids hold no assignment yet, the lottery
   * takes from each event exactly as many places as it gives to ids of the
   * queue, and never more than the event had left (none at all from an event
   * that had none).
   */
  lemma LotteryCapacity(setup: Setup, state: bv32)
    requires forall id | id in setup.toProcess :: id in setup.studentMap
    requires Distinct(setup.toProcess)
    requires forall id | id in setup.toProcess :: id !in setup.ledger.assignments
    ensures Accounted(setup.ledger, setup.toProcess, Lottery(setup, state).0)
  {
    var queue, studentMap, ledger := setup.toProcess, setup.studentMap, setup.ledger;
    var r1 := DrawRound(First, queue, studentMap, ledger, state);
    DrawRoundEffect(First, queue, studentMap, ledger, state);
    DrawRoundCapacity(First, queue, studentMap, ledger, state);
    DistinctPart(r1.1, queue);
    assert forall id | id in r1.1 :: id !in r1.0.assignments by {
      forall id | id in r1.1 ensures id !in r1.0.assignments {
        assert SameAt(r1.0.assignments, ledger.assignments, id);
      }
    }
    var r2 := DrawRound(Second, r1.1, studentMap, r1.0, r1.2);
    DrawRoundEffect(Second, r1.1, studentMap, r1.0, r1.2);
    DrawRoundCapacity(Second, r1.1, studentMap, r1.0, r1.2);
    DistinctPart(r2.1, r1.1);
    assert forall id | id in r2.1 :: id !in r2.0.assignments by {
      forall id | id in r2.1 ensures id !in r2.0.assignments {
        assert SameAt(r2.0.assignments, r1.0.assignments, id);
      }
    }
    var r3 := DrawRound(Third, r2.1, studentMap, r2.0, r2.2);
    DrawRoundEffect(Third, r2.1, studentMap, r2.0, r2.2);
    DrawRoundCapacity(Third, r2.1, studentMap, r2.0, r2.2);
    assert Lottery(setup, state) == (r3.0, r3.1);
    CapacityChain(queue, r1.1, r2.1, ledger, r1.0, r2.0, r3.0);
  }

  /** The accounting of three successive rounds adds up to that of the lottery. */
  lemma CapacityChain(queue: seq<int>, left1: seq<int>, left2: seq<int>,
                      ledger0: Ledger, ledger1: Ledger, ledger2: Ledger, ledger3: Ledger)
    requires forall id | id in left1 :: id in queue && id !in ledger1.assignments
    requires forall id | id in left2 :: id in left1 && id !in ledger2.assignments
    requires forall id | id !in left1 :: SameAt(ledger2.assignments, ledger1.assignments, id)
    requires forall id | id !in left2 :: SameAt(ledger3.assignments, ledger2.assignments, id)
    requires Accounted(ledger0, queue, ledger1)
    requires Accounted(ledger1, left1, ledger2)
    requires Accounted(ledger2, left2, ledger3)
    ensures Accounted(ledger0, queue, ledger3)
  {
    forall e | e in ledger0.remaining
      ensures |AssignedTo(queue, ledger3.assignments, e)|
           == |AssignedTo(queue, ledger1.assignments, e)| + |AssignedTo(left1, ledger2.assignments, e)|
              + |AssignedTo(left2, ledger3.assignments, e)|
    {
      AssignedToSplit(queue, left1, ledger1.assignments, ledger2.assignments, e);
      AssignedToSplit(queue, left2, ledger2.assignments, ledger3.assignments, e);
    }
  }
}
