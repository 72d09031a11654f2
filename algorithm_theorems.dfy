/**
 * What `allocate` promises about its result, proved about `Allocation`, the
 * function the engine's `Allocate` method is proved to compute. Every result
 * here assumes unique student ids, which the engine relies on without checking.
 */
module AlgorithmTheorems {
  import opened Wrappers
  import opened Algorithm
  import opened AlgorithmProofs

  /** Putting ids on the waitlist maps each of them to null and leaves every other id alone. */
  lemma {:induction false} UnassignEffect(assignments: Assignments, ids: seq<int>)
    ensures var r := Unassign(assignments, ids);
      && (forall id | id in ids :: id in r && r[id] == None)
      && (forall id | id !in ids :: SameAt(r, assignments, id))
  {
    if ids != [] {
      UnassignEffect(assignments, ids[..|ids| - 1]);
      assert ids == ids[..|ids| - 1] + [ids[|ids| - 1]];
    }
  }

  /** What the partition of `input` into kept and queued students provides, with unique ids. */
  ghost predicate Queued(input: AllocationInput, setup: Setup)
  {
    var students, pm := input.students, input.preserveManual;
    && (forall s | s in students :: s.id in setup.studentMap && setup.studentMap[s.id] == s)
    && (forall s | s in students && Preserved(s, pm) ::
          s.id in setup.ledger.assignments && setup.ledger.assignments[s.id] == s.assignedEventId && s.id !in setup.toProcess)
    && (forall s | s in students && !Preserved(s, pm) :: s.id in setup.toProcess)
    && (forall id | id in setup.toProcess :: id in setup.studentMap && !Preserved(setup.studentMap[id], pm))
    && (forall id | id in setup.ledger.assignments :: id in setup.studentMap)
    && Distinct(setup.toProcess)
    && (forall id | id in setup.toProcess :: id !in setup.ledger.assignments)
  }

  /** What the lottery over a queue without repeats provides (`LotteryEffect`). */
  ghost predicate Drawn(setup: Setup, lottery: (Ledger, seq<int>))
  {
    && lottery.0.remaining.Keys == setup.ledger.remaining.Keys
    && Distinct(lottery.1)
    && (forall id | id in lottery.1 :: id in setup.toProcess)
    && (forall id | id !in setup.toProcess :: SameAt(lottery.0.assignments, setup.ledger.assignments, id))
    && (forall id | id in lottery.1 :: id !in lottery.0.assignments)
    && (forall id | id in setup.toProcess && id !in lottery.1 ::
          id in lottery.0.assignments && id in setup.studentMap
          && OneOfPreferences(setup.studentMap[id], lottery.0.assignments[id]))
  }

  /** The partition of `input`, with the facts `Queued` gathers. */
  lemma PartitionFacts(input: AllocationInput) returns (setup: Setup)
    requires UniqueIds(input.students)
    ensures setup == Partition(input.students, input.preserveManual, Capacities(input.events))
    ensures Queued(input, setup)
  {
    var students, pm, capacities := input.students, input.preserveManual, Capacities(input.events);
    setup := Partition(students, pm, capacities);
    PartitionFindsStudents(students, pm, capacities);
    PartitionKeepsManual(students, pm, capacities);
    PartitionSkipsPreserved(students, pm, capacities);
    PartitionQueue(students, pm, capacities);
    PartitionQueuesUnpreserved(students, pm, capacities);
    PartitionQueueFresh(students, pm, capacities);
  }

  /** The partition and the lottery `Allocation(input)` is made of, with their facts. */
  lemma DrawnFacts(input: AllocationInput) returns (setup: Setup, lottery: (Ledger, seq<int>))
    requires UniqueIds(input.students)
    ensures Queued(input, setup) && Drawn(setup, lottery)
    ensures setup == Partition(input.students, input.preserveManual, Capacities(input.events))
    ensures forall id | id in setup.toProcess :: id in setup.studentMap
    ensures lottery == Lottery(setup, SeedState(input.seed))
  {
    setup := PartitionFacts(input);
    lottery := Lottery(setup, SeedState(input.seed));
    LotteryEffect(setup, SeedState(input.seed));
    DistinctPart(lottery.1, setup.toProcess);
    forall id | id in lottery.1
      ensures id in setup.toProcess
    {
      assert multiset(lottery.1)[id] <= multiset(setup.toProcess)[id];
    }
  }

  /** `Allocation(input)` in terms of the lottery it runs. */
  lemma AllocationOfLottery(input: AllocationInput, setup: Setup, lottery: (Ledger, seq<int>))
    requires setup == Partition(input.students, input.preserveManual, Capacities(input.events))
    requires lottery == Lottery(setup, SeedState(input.seed))
    ensures Allocation(input).sonderliste == lottery.1
    ensures Allocation(input).assignments == Unassign(lottery.0.assignments, lottery.1)
  {
  }

  // ---------------------------------------------------------------------------
  // The result of `allocate`
  // ---------------------------------------------------------------------------

  /**
   * With `preserveManual`, every manual student keeps exactly the event they
   * were given, null included, and never appears on the waitlist.
   */
  lemma AllocationKeepsManual(input: AllocationInput)
    requires UniqueIds(input.students)
    ensures var r := Allocation(input);
      forall s | s in input.students && Preserved(s, input.preserveManual) ::
        s.id in r.assignments && r.assignments[s.id] == s.assignedEventId && s.id !in r.sonderliste
  {
    var setup, lottery := DrawnFacts(input);
    AllocationOfLottery(input, setup, lottery);
    UnassignEffect(lottery.0.assignments, lottery.1);
    forall s | s in input.students && Preserved(s, input.preserveManual)
      ensures s.id !in lottery.1
      ensures SameAt(lottery.0.assignments, setup.ledger.assignments, s.id)
    {
      assert s.id !in setup.toProcess;
    }
  }

  /** Every student, and nobody else, has an entry in the returned assignments. */
  lemma AllocationCoversEveryone(input: AllocationInput)
    requires UniqueIds(input.students)
    ensures Allocation(input).assignments.Keys == set s | s in input.students :: s.id
  {
    var setup, lottery := DrawnFacts(input);
    AllocationOfLottery(input, setup, lottery);
    WaitlistedKeys(input, setup, lottery);
  }

  /** `AllocationCoversEveryone` for the waitlisted assignments of a partition and a lottery. */
  lemma WaitlistedKeys(input: AllocationInput, setup: Setup, lottery: (Ledger, seq<int>))
    requires Queued(input, setup) && Drawn(setup, lottery)
    requires setup.studentMap.Keys == set s | s in input.students :: s.id
    ensures Unassign(lottery.0.assignments, lottery.1).Keys == setup.studentMap.Keys
  {
    var assignments := Unassign(lottery.0.assignments, lottery.1);
    UnassignEffect(lottery.0.assignments, lottery.1);
    forall id
      ensures id in assignments <==> id in setup.studentMap
    {
      if id in setup.toProcess {
      } else if id in setup.studentMap {
        var s :| s in input.students && s.id == id;
        assert SameAt(lottery.0.assignments, setup.ledger.assignments, id);
      } else {
        assert SameAt(lottery.0.assignments, setup.ledger.assignments, id);
        assert SameAt(assignments, lottery.0.assignments, id);
      }
    }
  }

  /**
   * The waitlist holds each id once; everyone on it is a drawn student mapped
   * to null, and a drawn student is on it exactly when they end up with null.
   */
  lemma AllocationWaitlist(input: AllocationInput)
    requires UniqueIds(input.students)
    ensures var r := Allocation(input);
      && Distinct(r.sonderliste)
      && (forall id | id in r.sonderliste :: id in r.assignments && r.assignments[id] == None)
      && (forall id | id in r.sonderliste :: id in Queue(input.students, input.preserveManual))
      && (forall s | s in input.students && !Preserved(s, input.preserveManual) ::
            s.id in r.assignments && (s.id in r.sonderliste <==> r.assignments[s.id] == None))
  {
    var setup, lottery := DrawnFacts(input);
    AllocationOfLottery(input, setup, lottery);
    PartitionQueueIs(input.students, input.preserveManual, Capacities(input.events));
    WaitlistedDrawn(input, setup, lottery);
  }

  /** `AllocationWaitlist` for the waitlisted assignments of a partition and a lottery. */
  lemma WaitlistedDrawn(input: AllocationInput, setup: Setup, lottery: (Ledger, seq<int>))
    requires Queued(input, setup) && Drawn(setup, lottery)
    ensures var assignments := Unassign(lottery.0.assignments, lottery.1);
      && (forall id | id in lottery.1 :: id in assignments && assignments[id] == None)
      && (forall s | s in input.students && !Preserved(s, input.preserveManual) ::
            s.id in assignments && (s.id in lottery.1 <==> assignments[s.id] == None))
  {
    UnassignEffect(lottery.0.assignments, lottery.1);
    forall s | s in input.students && !Preserved(s, input.preserveManual) && s.id !in lottery.1
      ensures SameAt(Unassign(lottery.0.assignments, lottery.1), lottery.0.assignments, s.id)
      ensures s.id in lottery.0.assignments && lottery.0.assignments[s.id] != None
    {
      assert s.id in setup.toProcess;
    }
  }

  /** A drawn student who is not on the waitlist holds one of the events they asked for. */
  lemma AllocationRespectsPreferences(input: AllocationInput)
    requires UniqueIds(input.students)
    ensures var r := Allocation(input);
      forall s | s in input.students && !Preserved(s, input.preserveManual) && s.id !in r.sonderliste ::
        s.id in r.assignments && OneOfPreferences(s, r.assignments[s.id])
  {
    var setup, lottery := DrawnFacts(input);
    AllocationOfLottery(input, setup, lottery);
    WaitlistedPlaced(input, setup, lottery);
  }

  /** `AllocationRespectsPreferences` for the waitlisted assignments of a partition and a lottery. */
  lemma WaitlistedPlaced(input: AllocationInput, setup: Setup, lottery: (Ledger, seq<int>))
    requires Queued(input, setup) && Drawn(setup, lottery)
    ensures var assignments := Unassign(lottery.0.assignments, lottery.1);
      forall s | s in input.students && !Preserved(s, input.preserveManual) && s.id !in lottery.1 ::
        s.id in assignments && OneOfPreferences(s, assignments[s.id])
  {
    UnassignEffect(lottery.0.assignments, lottery.1);
    forall s | s in input.students && !Preserved(s, input.preserveManual) && s.id !in lottery.1
      ensures SameAt(Unassign(lottery.0.assignments, lottery.1), lottery.0.assignments, s.id)
      ensures s.id in lottery.0.assignments && OneOfPreferences(s, lottery.0.assignments[s.id])
    {
      assert s.id in setup.toProcess;
      assert setup.studentMap[s.id] == s;
    }
  }

  /**
   * The rounds give an event at most as many students as it has places left
   * after the preserved manual assignments, and none when those already fill it.
   */
  lemma AllocationCapacity(input: AllocationInput, e: int)
    requires UniqueIds(input.students)
    requires e in Capacities(input.events)
    ensures var free := Capacities(input.events)[e] - ManualCount(input.students, input.preserveManual, e);
      |AssignedTo(Queue(input.students, input.preserveManual), Allocation(input).assignments, e)|
        <= if free > 0 then free else 0
  {
    var setup := Partition(input.students, input.preserveManual, Capacities(input.events));
    var lottery := Lottery(setup, SeedState(input.seed));
    AllocationOfLottery(input, setup, lottery);
    LotteryAccounts(input, setup, lottery, e);
    WaitlistedCapacity(setup, lottery, Queue(input.students, input.preserveManual), e,
      Capacities(input.events)[e] - ManualCount(input.students, input.preserveManual, e));
  }

  /**
   * The lottery over `setup` took from event `e`, which had `free` places left,
   * one place per id of `queue` it placed there, and left unassigned the ids it returned.
   */
  ghost predicate AccountedAt(setup: Setup, lottery: (Ledger, seq<int>), queue: seq<int>, e: int, free: int) {
    && Accounted(setup.ledger, setup.toProcess, lottery.0)
    && (forall id | id in lottery.1 :: id !in lottery.0.assignments)
    && queue == setup.toProcess
    && e in setup.ledger.remaining
    && setup.ledger.remaining[e] == free
  }

  /** What `AllocationCapacity` needs to know about the partition and the lottery of `input`. */
  lemma LotteryAccounts(input: AllocationInput, setup: Setup, lottery: (Ledger, seq<int>), e: int)
    requires UniqueIds(input.students)
    requires e in Capacities(input.events)
    requires setup == Partition(input.students, input.preserveManual, Capacities(input.events))
    requires lottery == Lottery(setup, SeedState(input.seed))
    ensures AccountedAt(setup, lottery, Queue(input.students, input.preserveManual), e,
      Capacities(input.events)[e] - ManualCount(input.students, input.preserveManual, e))
  {
    var students, pm, capacities := input.students, input.preserveManual, Capacities(input.events);
    PartitionQueueFresh(students, pm, capacities);
    PartitionQueueIs(students, pm, capacities);
    PartitionCharges(students, pm, capacities);
    LotteryCapacity(setup, SeedState(input.seed));
    LotteryEffect(setup, SeedState(input.seed));
  }

  /** An event's count after the waitlist, from the lottery's accounting and the places free before it. */
  lemma WaitlistedCapacity(setup: Setup, lottery: (Ledger, seq<int>), queue: seq<int>, e: int, free: int)
    requires AccountedAt(setup, lottery, queue, e, free)
    ensures |AssignedTo(queue, Unassign(lottery.0.assignments, lottery.1), e)| <= if free > 0 then free else 0
  {
    WaitlistKeepsCount(queue, lottery, e);
  }

  /** Putting the ids the lottery returns on the waitlist does not change who is sent to an event. */
  lemma WaitlistKeepsCount(ids: seq<int>, lottery: (Ledger, seq<int>), e: int)
    requires forall id | id in lottery.1 :: id !in lottery.0.assignments
    ensures AssignedTo(ids, Unassign(lottery.0.assignments, lottery.1), e) == AssignedTo(ids, lottery.0.assignments, e)
  {
    var assignments := Unassign(lottery.0.assignments, lottery.1);
    UnassignEffect(lottery.0.assignments, lottery.1);
    forall id
      ensures id in AssignedTo(ids, assignments, e) <==> id in AssignedTo(ids, lottery.0.assignments, e)
    {
      if id !in lottery.1 {
        assert SameAt(assignments, lottery.0.assignments, id);
      }
    }
  }
}
