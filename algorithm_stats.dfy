/**
 * What `calculateStats` counts: every counter is the number of students in
 * its bucket, the buckets cover every student, and, for the result of
 * `allocate`, the waitlist counter adds the manual students kept at null to
 * the returned waitlist.
 */
module AlgorithmStats {
  import opened Wrappers
  import opened Algorithm
  import opened AlgorithmProofs
  import opened AlgorithmTheorems

  /** The number of students whose entry in `assignments` lands them in bucket `outcome`. */
  ghost function CountOf(assignments: Assignments, students: seq<Student>, outcome: Outcome): nat {
    if students == [] then 0
    else
      var s := students[|students| - 1];
      CountOf(assignments, students[..|students| - 1], outcome)
        + if Classify(s, Lookup(assignments, s.id)) == outcome then 1 else 0
  }

  /** Each counter of the loop is the size of its bucket. */
  lemma {:induction false} TallyCounts(assignments: Assignments, students: seq<Student>, total: int)
    ensures var r := Tally(assignments, students, total);
      && r.got1stChoice == CountOf(assignments, students, GotFirst)
      && r.got2ndChoice == CountOf(assignments, students, GotSecond)
      && r.got3rdChoice == CountOf(assignments, students, GotThird)
      && r.sonderliste == CountOf(assignments, students, Waitlisted)
  {
    if students != [] {
      TallyCounts(assignments, students[..|students| - 1], total);
    }
  }

  /** Every student lands in exactly one bucket. */
  lemma {:induction false} BucketsCoverStudents(assignments: Assignments, students: seq<Student>)
    ensures CountOf(assignments, students, Waitlisted) + CountOf(assignments, students, GotFirst)
          + CountOf(assignments, students, GotSecond) + CountOf(assignments, students, GotThird)
          + CountOf(assignments, students, Elsewhere) == |students|
  {
    if students != [] {
      BucketsCoverStudents(assignments, students[..|students| - 1]);
    }
  }

  /** No student lands in the uncounted bucket exactly when nobody is counted in it. */
  lemma {:induction false} NoneElsewhere(assignments: Assignments, students: seq<Student>)
    ensures CountOf(assignments, students, Elsewhere) == 0
        <==> forall s | s in students :: Classify(s, Lookup(assignments, s.id)) != Elsewhere
  {
    if students != [] {
      var n := |students| - 1;
      NoneElsewhere(assignments, students[..n]);
      assert students == students[..n] + [students[n]];
    }
  }

  /**
   * The four counters of `calculateStats` add up to the total less the students
   * whose event matches none of their preferences; they add up to the total
   * exactly when there is no such student.
   */
  lemma StatsAddUp(assignments: Assignments, students: seq<Student>)
    ensures var r := StatsOf(assignments, students);
      && r.got1stChoice + r.got2ndChoice + r.got3rdChoice + r.sonderliste
           == r.total - CountOf(assignments, students, Elsewhere)
      && ((r.got1stChoice + r.got2ndChoice + r.got3rdChoice + r.sonderliste == r.total)
          <==> (forall s | s in students :: Classify(s, Lookup(assignments, s.id)) != Elsewhere))
  {
    TallyCounts(assignments, students, |students|);
    BucketsCoverStudents(assignments, students);
    NoneElsewhere(assignments, students);
  }

  /**
   * In the result of `allocate`, only a preserved manual student can land in
   * no counter, and only by holding an event none of their preferences names;
   * when no such student exists, the four counters add up to the total.
   */
  lemma AllocationStatsAddUp(input: AllocationInput)
    requires UniqueIds(input.students)
    ensures var r := Allocation(input);
      forall s | s in input.students && Classify(s, Lookup(r.assignments, s.id)) == Elsewhere ::
        Preserved(s, input.preserveManual) && s.assignedEventId.Some? && !OneOfPreferences(s, s.assignedEventId)
    ensures var r := Allocation(input);
      (forall s | s in input.students && Preserved(s, input.preserveManual) && s.assignedEventId.Some? ::
         OneOfPreferences(s, s.assignedEventId))
      ==> r.stats.got1stChoice + r.stats.got2ndChoice + r.stats.got3rdChoice + r.stats.sonderliste == r.stats.total
  {
    var r := Allocation(input);
    AllocationKeepsManual(input);
    AllocationWaitlist(input);
    AllocationRespectsPreferences(input);
    OnlyManualElsewhere(input, r.assignments, r.sonderliste);
    assert r.stats == StatsOf(r.assignments, input.students);
    StatsAddUp(r.assignments, input.students);
  }

  /** The per-student half of `AllocationStatsAddUp`, from what the other theorems say about the result. */
  lemma OnlyManualElsewhere(input: AllocationInput, assignments: Assignments, sonderliste: seq<int>)
    requires forall s | s in input.students && Preserved(s, input.preserveManual) ::
      s.id in assignments && assignments[s.id] == s.assignedEventId
    requires forall s | s in input.students && !Preserved(s, input.preserveManual) ::
      s.id in assignments && (s.id in sonderliste <==> assignments[s.id] == None)
    requires forall s | s in input.students && !Preserved(s, input.preserveManual) && s.id !in sonderliste ::
      s.id in assignments && OneOfPreferences(s, assignments[s.id])
    ensures forall s | s in input.students && Classify(s, Lookup(assignments, s.id)) == Elsewhere ::
      Preserved(s, input.preserveManual) && s.assignedEventId.Some? && !OneOfPreferences(s, s.assignedEventId)
  {
  }

  /** The number of preserved manual students kept at null. */
  ghost function ManualNulls(students: seq<Student>, preserveManual: bool): nat {
    if students == [] then 0
    else
      var s := students[|students| - 1];
      ManualNulls(students[..|students| - 1], preserveManual)
        + if Preserved(s, preserveManual) && s.assignedEventId.None? then 1 else 0
  }

  /** The number of drawn students whose id is in `ids`. */
  ghost function CountListed(students: seq<Student>, preserveManual: bool, ids: set<int>): nat {
    if students == [] then 0
    else
      var s := students[|students| - 1];
      CountListed(students[..|students| - 1], preserveManual, ids)
        + if !Preserved(s, preserveManual) && s.id in ids then 1 else 0
  }

  /** A sequence without repeats has as many members as elements. */
  lemma {:induction false} DistinctCard(ids: seq<int>)
    requires Distinct(ids)
    ensures |set id | id in ids| == |ids|
  {
    if ids != [] {
      var n := |ids| - 1;
      DistinctInit(ids);
      DistinctCard(ids[..n]);
      assert (set id | id in ids) == (set id | id in ids[..n]) + {ids[n]} by {
        assert ids == ids[..n] + [ids[n]];
      }
    }
  }

  /** An id no student has does not change the count. */
  lemma {:induction false} CountListedIgnores(students: seq<Student>, preserveManual: bool, ids: set<int>, x: int)
    requires forall t | t in students :: t.id != x
    ensures CountListed(students, preserveManual, ids) == CountListed(students, preserveManual, ids - {x})
  {
    if students != [] {
      var n := |students| - 1;
      assert students[n] in students;
      CountListedIgnores(students[..n], preserveManual, ids, x);
    }
  }

  /** With unique ids, a set of queued ids is counted once per member. */
  lemma {:induction false} CountListedIsCard(students: seq<Student>, preserveManual: bool, ids: set<int>)
    requires UniqueIds(students)
    requires forall id | id in ids :: id in Queue(students, preserveManual)
    ensures CountListed(students, preserveManual, ids) == |ids|
  {
    if students == [] {
      assert Queue(students, preserveManual) == [];
      assert forall id :: id !in ids;
    } else {
      var n := |students| - 1;
      var init, s := students[..n], students[n];
      LastIdFresh(students);
      if !Preserved(s, preserveManual) && s.id in ids {
        CountListedIgnores(init, preserveManual, ids, s.id);
        CountListedIsCard(init, preserveManual, ids - {s.id});
      } else {
        CountListedIsCard(init, preserveManual, ids);
      }
    }
  }

  /**
   * When preserved students keep their manual event and a drawn student is
   * listed in `ids` exactly when they hold nothing, the waitlist bucket holds
   * the listed students and the manual students kept at null.
   */
  lemma {:induction false} WaitlistedSplit(assignments: Assignments, students: seq<Student>, preserveManual: bool, ids: set<int>)
    requires forall s | s in students && Preserved(s, preserveManual) :: Lookup(assignments, s.id) == s.assignedEventId
    requires forall s | s in students && !Preserved(s, preserveManual) :: Lookup(assignments, s.id).None? <==> s.id in ids
    ensures CountOf(assignments, students, Waitlisted)
         == CountListed(students, preserveManual, ids) + ManualNulls(students, preserveManual)
  {
    if students != [] {
      var n := |students| - 1;
      assert students[n] in students;
      WaitlistedSplit(assignments, students[..n], preserveManual, ids);
    }
  }

  /**
   * The waitlist counter of the stats is the length of the returned waitlist
   * plus the preserved manual students kept at null, who are counted but not listed.
   */
  lemma AllocationWaitlistCount(input: AllocationInput)
    requires UniqueIds(input.students)
    ensures var r := Allocation(input);
      r.stats.sonderliste == |r.sonderliste| + ManualNulls(input.students, input.preserveManual)
  {
    var r := Allocation(input);
    var students, pm := input.students, input.preserveManual;
    AllocationKeepsManual(input);
    AllocationWaitlist(input);
    var ids := set id | id in r.sonderliste;
    WaitlistedSplit(r.assignments, students, pm, ids);
    CountListedIsCard(students, pm, ids);
    DistinctCard(r.sonderliste);
    assert r.stats == StatsOf(r.assignments, students);
    TallyCounts(r.assignments, students, |students|);
  }
}
