# Sporttag lottery allocation, modelled in Dafny

Sporttag organises a school sports day. Students register with up to three
ranked event preferences, and events have capacities. A seeded lottery then
gives every student one event or puts them on the waitlist (the
*Sonderliste*). This project models that lottery engine and the pieces of the
application that feed it or print its results:

- **The allocation engine** (`allocate`, `tryAssign`, `calculateStats`).
  Modules `Algorithm`, `AlgorithmProofs`, `AlgorithmTheorems` and `AlgorithmStats`.
  - The engine's loops are methods. Each method is proved equal to a pure
    specification function: `Partition`, `Round`, `DrawRound`, `Lottery`,
    `Unassign`, `StatsOf` and `Allocation`.
  - The theorems are proved about those functions: manual assignments are
    kept, every student gets an entry, and preferences are respected.
  - The rounds never give an event more places than its preserved manual
    assignments leave: at most max(0, c − m) for capacity c and m preserved
    manual students. Manual assignments themselves are charged without a
    lower bound, so they can oversubscribe an event.
  - The four counters of the statistics sum to the total unless a preserved
    manual student holds an event outside their preferences; such a student
    is counted in none of them.
- **Seeded randomness** (module `Random`).
  - `hashSeed` is a loop, proved equal to a fold over the seed's UTF-16 code
    units. The fold is proved equal to the base-31 polynomial wrapped once to
    32 bits.
  - The `mulberry32` generator is a class whose state is advanced by each
    call.
  - The backward Fisher–Yates `shuffle` works in place on an array. It is
    proved a permutation and tied to the exact sequence of generator draws.
- **CSV export** (module `Csv`).
  - The text `downloadCSV` builds: header row, escaping, byte order mark and
    line joins.
  - The `.csv` file-name rule.
  - A reader for the format, and a round-trip proof that reading the content
    gives back the header and every cell.
- **The printed waitlist** (module `Sonderliste`): the capacity map and the
  rule that gives each unassigned student a reason.
- **The form validators** (modules `Schema`, `RegistrationSchema` and
  `EventSchema`).
  - Registration: name and class lengths, and the first, second and third
    priorities.
  - The rule that the given priorities differ.
  - Event: name, description and capacity bounds.
  - Each validator is proved to accept exactly the forms that satisfy a
    field-by-field predicate.

JavaScript strings are measured in UTF-16 code units (module `JsText`),
because `str.length` and `charCodeAt` count those.

## Model

| member | source | states |
|---|---|---|
| Algorithm.TryAssign | src/lib/allocation/algorithm.ts:13-26 | succeeds iff the event is known and has remaining capacity above 0; on success decrements exactly that event by one and records the student's assignment, otherwise changes nothing |
| Algorithm.Capacities | src/lib/allocation/algorithm.ts:77-80 | the capacity tracker has exactly the events' ids as keys |
| AlgorithmProofs.CapacitiesLastWins | src/lib/allocation/algorithm.ts:77-80 | for each id the tracker holds the capacity of the last event with that id, as `new Map` keeps the last entry |
| Algorithm.Partition | src/lib/allocation/algorithm.ts:83-104 | every queued id is in the student map, the map's keys are exactly the students' ids, and the tracker keeps its keys |
| Algorithm.Visit | src/lib/allocation/algorithm.ts:109-113 | one student's turn in a round keeps the tracker's set of events |
| Algorithm.Round | src/lib/allocation/algorithm.ts:106-136 | the ids a round carries over all came from its order; the tracker keeps its events |
| Algorithm.Unassign | src/lib/allocation/algorithm.ts:138-142 | putting the waitlist on the map adds exactly the waitlisted ids as keys |
| Algorithm.Classify | src/lib/allocation/algorithm.ts:45-53 | a student is on the waitlist iff nothing is held; otherwise the first matching preference rank wins |
| Algorithm.Tally | src/lib/allocation/algorithm.ts:35-54 | the counters start from total and zeros, never go negative, and count at most one per student |
| Algorithm.StatsOf | src/lib/allocation/algorithm.ts:31-57 | total is the number of students and the four counters sum to at most total |
| Algorithm.DrawRound | src/lib/allocation/algorithm.ts:107-114 | a shuffled round carries over only ids it was given and keeps the tracker's events |
| Algorithm.Lottery | src/lib/allocation/algorithm.ts:106-136 | the three rounds, all drawing from one generator, leave on the waitlist only queued ids, and the tracker keeps its events |
| Algorithm.RunRound | src/lib/allocation/algorithm.ts:109-114 | the round loop, which updates both maps through `TryAssign`, ends in the state `Round` specifies |
| Algorithm.CalculateStats | src/lib/allocation/algorithm.ts:31-57 | the counting loop returns `StatsOf` |
| Algorithm.PartitionStudents | src/lib/allocation/algorithm.ts:83-104 | the partition loop returns `Partition` |
| Algorithm.CapacityTracker | src/lib/allocation/algorithm.ts:77-80 | the tracker loop returns `Capacities` |
| Algorithm.LotteryRound | src/lib/allocation/algorithm.ts:117-125 | shuffling with the shared generator and then running the round gives `DrawRound`, including the generator's new state |
| Algorithm.Waitlist | src/lib/allocation/algorithm.ts:138-142 | the waitlist loop returns `Unassign` |
| Algorithm.Allocate | src/lib/allocation/algorithm.ts:71-152 | `allocate` is deterministic: its result is `Allocation(input)`, with one generator seeded from `hashSeed(seed)` used for three shuffles in round order |
| AlgorithmProofs.ManualCount | src/lib/allocation/algorithm.ts:90-99 | the number of preserved manual students holding an event is at most the number of students |
| AlgorithmProofs.Ids | src/lib/allocation/algorithm.ts:87-104 | one id per student |
| AlgorithmProofs.PartitionFindsStudents | src/lib/allocation/algorithm.ts:88 | with unique ids, the student map gives back each student |
| AlgorithmProofs.PartitionKeepsManual | src/lib/allocation/algorithm.ts:90-92 | with unique ids, every preserved manual student's assignment, null included, is recorded as given |
| AlgorithmProofs.PartitionQueue | src/lib/allocation/algorithm.ts:87-104 | assignments are recorded only for listed students, and every student not preserved is queued |
| AlgorithmProofs.PartitionQueueFresh | src/lib/allocation/algorithm.ts:100-103 | with unique ids, the queue holds each id once and none of them has an assignment yet |
| AlgorithmProofs.PartitionSkipsPreserved | src/lib/allocation/algorithm.ts:90-99 | with unique ids, a preserved student is never queued |
| AlgorithmProofs.PartitionQueuesUnpreserved | src/lib/allocation/algorithm.ts:90-103 | with unique ids, every queued id belongs to a student who is not preserved |
| AlgorithmProofs.PartitionCharges | src/lib/allocation/algorithm.ts:94-99 | after the partition, each event's remaining capacity is its capacity minus its preserved manual students, with no lower bound; a manual assignment to an unknown event charges nothing |
| AlgorithmProofs.Queue | src/lib/allocation/algorithm.ts:100-103 | the queue is no longer than the student list |
| AlgorithmProofs.PartitionQueueIs | src/lib/allocation/algorithm.ts:87-104 | the partition queues exactly the students it does not keep, in input order |
| AlgorithmProofs.NothingPreserved | src/lib/allocation/algorithm.ts:90 | without `preserveManual`, every student is queued in input order and no capacity is charged |
| AlgorithmProofs.VisitCases | src/lib/allocation/algorithm.ts:19-25 | a visit either carries the student over unchanged (no preference of this rank, or no room) or assigns the preference and takes one place |
| AlgorithmProofs.RoundLeavesPart | src/lib/allocation/algorithm.ts:108-113 | the carried-over ids are a sub-multiset of the round's order |
| AlgorithmProofs.RoundEffect | src/lib/allocation/algorithm.ts:109-136 | a round changes only the ids in its order; carried-over ids are untouched; an id the round places holds its preference of that rank; an id with a null preference is carried over |
| AlgorithmProofs.RoundCapacity | src/lib/allocation/algorithm.ts:19-23 | per event, a round takes exactly as many places as it assigns students, and never drives a non-negative remaining capacity below 0 |
| AlgorithmProofs.CapacityStep | src/lib/allocation/algorithm.ts:19-24 | one visit keeps the per-event capacity account |
| AlgorithmProofs.DrawRoundEffect | src/lib/allocation/algorithm.ts:107-136 | `RoundEffect` for a shuffled round: the shuffle keeps the ids, so the same facts hold of the drawn order |
| AlgorithmProofs.DrawRoundCapacity | src/lib/allocation/algorithm.ts:107-136 | `RoundCapacity` for a shuffled round |
| AlgorithmProofs.AssignedToSplit | src/lib/allocation/algorithm.ts:117-136 | the students assigned to an event after a later round are those assigned before it plus those the round adds, disjointly |
| AlgorithmProofs.LotteryEffect | src/lib/allocation/algorithm.ts:106-136 | after three rounds: the waitlist is part of the queue, ids outside the queue are untouched, waitlisted ids have no assignment, and every placed queued student holds one of their preferences |
| AlgorithmProofs.LotteryCapacity | src/lib/allocation/algorithm.ts:106-136 | over the three rounds, each event loses exactly as many places as queued students it receives, never below 0 from a non-negative start |
| AlgorithmProofs.CapacityChain | src/lib/allocation/algorithm.ts:106-136 | the per-event capacity account composes across the three rounds |
| AlgorithmTheorems.UnassignEffect | src/lib/allocation/algorithm.ts:139-142 | after the waitlist loop every waitlisted id maps to null and every other entry is unchanged |
| AlgorithmTheorems.PartitionFacts | src/lib/allocation/algorithm.ts:83-104 | with unique ids, the partition's queue, map and manual entries satisfy the facts the rounds rely on |
| AlgorithmTheorems.DrawnFacts | src/lib/allocation/algorithm.ts:106-136 | with unique ids, the lottery's waitlist is distinct, drawn from the queue and unassigned; every placed queued student holds one of their preferences |
| AlgorithmTheorems.AllocationOfLottery | src/lib/allocation/algorithm.ts:138-151 | the result's waitlist is the third round's leftovers, and its assignments are the lottery's with those ids set to null |
| AlgorithmTheorems.AllocationKeepsManual | src/lib/allocation/algorithm.ts:90-92 | with `preserveManual`, every manual student keeps exactly their assigned event (possibly null) and is never on the returned waitlist |
| AlgorithmTheorems.AllocationCoversEveryone | src/lib/allocation/algorithm.ts:87-142 | the returned assignments have exactly the input students' ids as keys |
| AlgorithmTheorems.WaitlistedKeys | src/lib/allocation/algorithm.ts:139-142 | the waitlist loop leaves exactly the student ids as keys |
| AlgorithmTheorems.AllocationWaitlist | src/lib/allocation/algorithm.ts:138-142 | the returned waitlist is duplicate-free, made of queued students, all mapped to null; a student who is not preserved is on it iff mapped to null |
| AlgorithmTheorems.WaitlistedDrawn | src/lib/allocation/algorithm.ts:138-142 | `AllocationWaitlist` for the lottery's leftovers |
| AlgorithmTheorems.AllocationRespectsPreferences | src/lib/allocation/algorithm.ts:109-136 | every processed student not on the waitlist holds one of their own preferences |
| AlgorithmTheorems.WaitlistedPlaced | src/lib/allocation/algorithm.ts:109-142 | `AllocationRespectsPreferences` for the lottery's result |
| AlgorithmTheorems.AllocationCapacity | src/lib/allocation/algorithm.ts:94-136 | for an event of capacity c with m preserved manual students, the rounds assign it at most max(0, c − m) students |
| AlgorithmTheorems.LotteryAccounts | src/lib/allocation/algorithm.ts:94-136 | the lottery's per-event account starts from c − m |
| AlgorithmTheorems.WaitlistedCapacity | src/lib/allocation/algorithm.ts:139-142 | the capacity bound holds of the assignments after the waitlist loop |
| AlgorithmTheorems.WaitlistKeepsCount | src/lib/allocation/algorithm.ts:139-142 | setting waitlisted ids to null does not change who is assigned to an event |
| AlgorithmStats.TallyCounts | src/lib/allocation/algorithm.ts:43-54 | each counter is the number of students whose outcome falls in its bucket |
| AlgorithmStats.BucketsCoverStudents | src/lib/allocation/algorithm.ts:43-54 | every student falls in exactly one of the five buckets, one of which has no counter |
| AlgorithmStats.NoneElsewhere | src/lib/allocation/algorithm.ts:47-53 | the uncounted bucket is empty iff no student holds an event outside their preferences |
| AlgorithmStats.StatsAddUp | src/lib/allocation/algorithm.ts:31-57 | the four counters sum to total minus the uncounted students, and equal total iff there are none |
| AlgorithmStats.AllocationStatsAddUp | src/lib/allocation/algorithm.ts:35-92 | in `allocate`'s result only a preserved manual student whose event is none of their preferences is uncounted; without one, the counters sum to total |
| AlgorithmStats.OnlyManualElsewhere | src/lib/allocation/algorithm.ts:45-53 | the per-student half of `AllocationStatsAddUp` |
| AlgorithmStats.CountListedIsCard | src/lib/allocation/algorithm.ts:100-103 | with unique ids, counting the students whose id is in a set of queued ids gives the set's size |
| AlgorithmStats.WaitlistedSplit | src/lib/allocation/algorithm.ts:45-46 | the waitlist counter counts preserved students holding null plus the students on the waitlist |
| AlgorithmStats.AllocationWaitlistCount | src/lib/allocation/algorithm.ts:138-145 | `stats.sonderliste` is the returned waitlist's length plus the preserved manual students whose assignment is null |
| Random.ToInt32 | src/lib/allocation/random.ts:26 | a signed 32-bit value congruent to the input modulo 2^32 |
| Random.ToUint32 | src/lib/allocation/random.ts:13 | an unsigned 32-bit value congruent to the input modulo 2^32 |
| Random.ShiftStepIsTimes31 | src/lib/allocation/random.ts:25-26 | `((h << 5) - h) + c` followed by `& itself` is int32(31·h + c) |
| Random.HashFoldIsPolynomial | src/lib/allocation/random.ts:22-28 | wrapping at every step equals wrapping the base-31 polynomial of the code units once |
| Random.HashSeed | src/lib/allocation/random.ts:21-29 | the loop returns the signed 32-bit left fold h := int32(31·h + charCode) over the UTF-16 code units |
| Random.EmptySeedHashesToZero | src/lib/allocation/random.ts:22-28 | the empty seed hashes to 0 |
| Random.Fraction | src/lib/allocation/random.ts:13 | each output u / 2^32 lies in [0, 1) |
| Random.Mulberry32.constructor | src/lib/allocation/random.ts:8 | the captured state starts at the seed's 32-bit pattern |
| Random.Mulberry32.Next | src/lib/allocation/random.ts:9-14 | each call advances the state by 0x6D2B79F5 modulo 2^32 and returns a value that depends only on the new state |
| Random.SwapIndex | src/lib/allocation/random.ts:41 | the swap index at step i lies in [0, i] |
| Random.SwapIndexIsFloor | src/lib/allocation/random.ts:41 | the integer index is `Math.floor(rng() * (i + 1))` of the exact output |
| Random.SwapPermutes | src/lib/allocation/random.ts:42 | an exchange keeps the elements |
| Random.Draws | src/lib/allocation/random.ts:9-14 | n calls yield n outputs |
| Random.DrawIsMixOfAdvancedState | src/lib/allocation/random.ts:10-13 | the k-th output mixes the state after k + 1 advances |
| Random.ShuffleWith | src/lib/allocation/random.ts:40-43 | the backward Fisher–Yates loop keeps the length |
| Random.ShuffleWithPermutes | src/lib/allocation/random.ts:39-44 | the shuffle is a permutation of its input |
| Random.ShuffleStep | src/lib/allocation/random.ts:40-42 | one loop step uses the first remaining draw at position i |
| Random.FirstDraw | src/lib/allocation/random.ts:9-14 | the first of n draws comes from the once-advanced state |
| Random.Shuffled | src/lib/allocation/random.ts:37-45 | the shuffle of an array has the same length and elements; arrays of length 0 or 1 come back unchanged with the state unchanged; the state advances once per swap |
| Random.SwapAt | src/lib/allocation/random.ts:41-42 | one pass exchanges position i with the drawn position |
| Random.ShuffleRound | src/lib/allocation/random.ts:40-43 | one pass of the loop leaves exactly the remaining work, and advances the generator once |
| Random.Shuffle | src/lib/allocation/random.ts:37-45 | `shuffle` copies its input into an array, shuffles it in place and returns `Shuffled(input, state)` with the generator's new state; the same state and input give the same result and state |
| JsText.Units | src/lib/allocation/random.ts:24 | a character is one UTF-16 unit below U+10000, else two, each below 2^16 |
| JsText.CodeUnits | src/lib/allocation/random.ts:23-24 | a string has at least as many code units as characters, each below 2^16 |
| Csv.Keys | src/lib/csv.ts:12 | the headers are the first record's keys, in order |
| Csv.DoubleQuotes | src/lib/csv.ts:24 | doubling the quotes never shortens the text |
| Csv.EscapeAll | src/lib/csv.ts:20-27 | one escaped field per value |
| Csv.Cells | src/lib/csv.ts:19-21 | a row's i-th cell is the text of its value under the i-th header, null and undefined being empty |
| Csv.DataLines | src/lib/csv.ts:18-29 | one line per record |
| Csv.Content | src/lib/csv.ts:9-32 | there is content iff there is at least one record, and it starts with the byte order mark |
| Csv.DownloadName | src/lib/csv.ts:38 | the name always ends in `.csv`; it is kept iff it already does, else `.csv` is appended |
| Csv.DownloadNameIdempotent | src/lib/csv.ts:38 | naming the file a second time changes nothing |
| Csv.ReadPlainBack | src/lib/csv.ts:26 | an unquoted field holding no separator or line feed reads back as itself |
| Csv.ReadQuotedBack | src/lib/csv.ts:24 | the inside of a quoted field, quotes doubled, reads back as the original text |
| Csv.ReadFieldBack | src/lib/csv.ts:23-26 | every escaped field reads back as the original value and stops at the following separator or line feed |
| Csv.ReadLineBack | src/lib/csv.ts:28 | an escaped line reads back as its fields |
| Csv.ReadBack | src/lib/csv.ts:32 | lines joined with line feeds read back as the lines |
| Csv.WriteLines | src/lib/csv.ts:18-29 | one written line per row of fields |
| Csv.Table | src/lib/csv.ts:18-29 | the table has one row per record, each the record's cells in header order |
| Csv.PlainHeaders | src/lib/csv.ts:17 | header names that need no quoting are the same escaped or not |
| Csv.DataLinesAreWritten | src/lib/csv.ts:18-29 | the data lines are the table's rows written out |
| Csv.ContentReadsBack | src/lib/csv.ts:12-32 | when the first record has a key and no header name needs quoting, the content after the byte order mark reads back as the header row followed by every record's cells in header order |
| Sonderliste.CapacityMap | src/app/output/sonderliste/page.tsx:34-36 | every event's id is a key of the map, and only those |
| Sonderliste.CapacityMapLastWins | src/app/output/sonderliste/page.tsx:34-36 | for each id the map holds the capacity and count of the last event with that id |
| Sonderliste.Present | src/app/output/sonderliste/page.tsx:40-44 | the non-null priorities are no more than the priorities |
| Sonderliste.PresentMembers | src/app/output/sonderliste/page.tsx:40-44 | a priority is kept iff its id is not null, and nothing else is kept |
| Sonderliste.RankOrderKept | src/app/output/sonderliste/page.tsx:40-44 | the kept priorities are rank 1's, then rank 2's, then rank 3's |
| Sonderliste.FullOnes | src/app/output/sonderliste/page.tsx:46-49 | the full priorities are no more than the priorities |
| Sonderliste.FullOnesAreFull | src/app/output/sonderliste/page.tsx:46-49 | the filter keeps only full priorities from the list, where full means known and count ≥ capacity |
| Sonderliste.AllFullIff | src/app/output/sonderliste/page.tsx:46-52 | as many full priorities as priorities iff every priority's event is full |
| Sonderliste.SomeFullIff | src/app/output/sonderliste/page.tsx:46-54 | some full priority iff some priority's event is full |
| Sonderliste.ReasonCases | src/app/output/sonderliste/page.tsx:51-58 | all chosen events full (at least one chosen) gives "Alle Wahlen voll"; some full and some not gives the full ones' names joined by ", " plus " voll"; none full gives "Nicht zugewiesen" |
| Sonderliste.UnknownChoicesNotAssigned | src/app/output/sonderliste/page.tsx:46-58 | a student none of whose chosen events is in the capacity map (all deleted, or none chosen) is listed as "Nicht zugewiesen", since an unknown event is never full |
| Sonderliste.Waitlist | src/app/output/sonderliste/page.tsx:39-69 | one output row per unassigned student, in order, with name, class and priority names passed through and the reason given by the rule |
| Schema.LengthIssues | src/lib/validations/registrations.ts:11-22 | a string passes iff its UTF-16 length is within bounds; a short one gets the minimum's message, a long one the maximum's |
| Schema.NumberIssues | src/lib/validations/events.ts:11-14 | a number passes iff it is a whole number within bounds; each failing check reports its own issue |
| RegistrationSchema.Normalize | src/lib/validations/registrations.ts:4-5 | an empty string, null or undefined optional priority becomes null; a number is kept |
| RegistrationSchema.OptionalPriorityIssues | src/lib/validations/registrations.ts:6 | an optional priority passes iff it is null or a whole number of at least 1 |
| RegistrationSchema.Chosen | src/lib/validations/registrations.ts:33-35 | the non-null priorities start with the first priority and number from one to three |
| RegistrationSchema.Elements | src/lib/validations/registrations.ts:36 | `new Set` holds exactly the list's values and is no larger than the list |
| RegistrationSchema.SetSizeIffNoRepeats | src/lib/validations/registrations.ts:36 | the set is as large as the list iff no value repeats |
| RegistrationSchema.ChosenNoRepeats | src/lib/validations/registrations.ts:33-36 | the non-null priorities have no repeats iff the given ones differ pairwise |
| RegistrationSchema.DistinctIffDiffer | src/lib/validations/registrations.ts:30-37 | the refinement holds iff the non-null priorities differ pairwise; nulls never conflict |
| RegistrationSchema.ParseAcceptsWellFormed | src/lib/validations/registrations.ts:9-42 | a form is accepted iff first name and last name have length 1..100, class has length 1..10, priority 1 is a whole number of at least 1, each optional priority is null or one, and the given ones differ |
| RegistrationSchema.AcceptedRegistration | src/lib/validations/registrations.ts:9-42 | an accepted registration has priorities of at least 1 that differ pairwise and passes the names through |
| RegistrationSchema.RepeatReportedOnThird | src/lib/validations/registrations.ts:38-41 | repeated priorities are reported as the last issue, on `priority3Id`, with the distinctness message |
| EventSchema.DescriptionIssues | src/lib/validations/events.ts:7-10 | a description passes iff it is absent or at most 1000 units long (the empty string included); a longer one gets the length message |
| EventSchema.ParseAcceptsWellFormed | src/lib/validations/events.ts:3-15 | an event form is accepted iff the name has length 1..100, the description is absent or at most 1000, and the capacity is a whole number from 1 to 500; an accepted capacity is that integer |
| EventSchema.CapacityMessages | src/lib/validations/events.ts:11-14 | a capacity that is not whole, below 1, or above 500 gets each its own message |
| EventSchema.EmptyDescriptionAccepted | src/lib/validations/events.ts:10 | the empty description is accepted |

## Left out

- Floating point. `mulberry32` returns a double `u / 2^32`, and `shuffle` computes `Math.floor(rng() * (i + 1))`. The model keeps u as a 32-bit integer and computes the index as `(u · (i + 1)) / 2^32` in integers (`SwapIndexIsFloor` relates the two in exact reals). The double product is exact, and the two agree, only while the array length is at most 2^21.
- The generator's `seed` counter is a JavaScript double that is never truncated. The model wraps it to 32 bits at each call, which agrees only while the counter stays below 2^53 (about 4.9 million calls).
- Uniformity of the shuffle and the generator's full period of 2^32 are probabilistic and number-theoretic claims. They are not stated.
- Random.DrawCount: its contract states only that a shuffle of n > 0 elements draws fewer than n values. The exact count, max(n − 1, 0), is carried by `Shuffled`'s state equation through the function's definition.
- AlgorithmTheorems.AllocationKeepsManual, AllocationCoversEveryone, AllocationWaitlist, AllocationRespectsPreferences, AllocationCapacity and AlgorithmStats.AllocationStatsAddUp, AllocationWaitlistCount: stated for inputs whose student ids are unique. The ids are database primary keys. With a repeated id the engine's `studentMap` keeps only the last student of that id, and these statements do not describe that case.
- Insertion order of the engine's `Map`s is not modelled. Assignments and capacities are Dafny maps, and only the waitlist keeps its order.
- JavaScript numbers are modelled as unbounded integers (engine) or exact reals (form values). Ids, capacities and counts stay far below 2^53.
- `downloadCSV`'s `Blob`, object URL and link-click download (src/lib/csv.ts:33-41) are browser side effects, and are not modelled.
- `String(value)` for values that are not strings (numbers, booleans, objects) is not modelled. A record value is null, undefined or the text it renders to.
- `Object.keys` enumeration order is not modelled: a record is given as its keys in enumeration order. JavaScript lists integer-like keys first.
- The CSV header row is written without escaping, as the source does, so `ContentReadsBack` needs header names without quote, semicolon or line feed.
- The waitlist page's database queries are not modelled. The unassigned students with their priority names, and each event's assigned count, are inputs.
- A priority name is null when its id is null, and also when the event it names has been deleted, since deleting an event does not check for registrations (src/lib/actions/events.ts:93-98). `Array.prototype.join` writes a null name as the empty string, and the model does the same in both cases.
- zod's coercion of form strings to numbers (`z.coerce.number()`), its type errors and its default message texts are not modelled. Form numbers arrive as finite numbers, and an issue without a custom message carries no text.
- zod's exact issue order and its union bookkeeping are library behaviour. The model reports one issue per failing check, field by field in declaration order, with the refinement's issue last.
- Rendering, the print view's name sort (`localeCompare` with German collation), the Electron shell, the database layer and the usage and update hooks are outside the modelled core.
