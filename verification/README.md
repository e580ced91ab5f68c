# arclaunch, modelled and proved in Dafny

arclaunch starts trees of programs. A launch file names executables and groups them: a *launch* runs its
members side by side and joins them with pipes, a *sequence* runs its stages one after the other and stops at
the first failure. Every node can run in several numbered instances at once. This project models that
lifecycle, the descriptor maps that travel down the tree, the algorithmic parts of the test framework kept
under `test/gtest`, and the WebSocket frame header of the `ws` example, and proves what they promise.

`dafny verify dfyconfig.toml` checks everything.

## How the project is laid out

**The node lifecycle.** `NodeTree` is the static tree and its recursive meaning. `Descriptors` holds the
descriptor table and maps. `Lifecycle` states every operation as a function on one state value: starting an
instance, the callbacks of a finished instance, reaping a process. `LifecycleInvariant`, `LifecycleStarting` and
`LifecycleFinishing` prove what every assignment and every call keeps; `LifecycleMeaning` follows the value of a
run, `LifecycleCascade` gives the exact course of a cascade of callbacks, `LifecycleMeasure` bounds what is running
altogether, `LifecycleHistory` says event by event what a cascade
reports; `LifecycleRuns` puts steps together to runs, in which
starts from outside, process exits, links and handler registrations come in any order. The main results about runs are
in `LifecycleTheorems` (who waits for whom, what every instance delivers), `LifecycleSequences` (the history of a
sequence) and `LifecycleLength` (how many exits every instance takes). `DescriptorLaws`, `DescriptorRuns`,
`LaunchWiring` and `HandDown` do the same for descriptors. `Runtime` is the program as it is written: node objects
whose methods update their fields in loops and callbacks, each proved to follow the function of the same name.
`Wrappers`, `Octets` and `Arithmetic` hold what several modules share.

A node is a number and the members of a group have larger numbers, because a group is built around its
members. A step of a run is atomic: a start is not interrupted by a reap, and processes finish only in reap
steps. `fork` is a function from the live process ids to a fresh one; the theorems hold for every such function.
The general completion handlers of a node are represented by one observer that records each completion
(`Completed`), an instance handler registered from outside the tree by the record of the call it gets (`Delivered`).

**The test framework.** `Regex`, `Printers`, `Filters`, `Sharding`, `Shuffling`, `TestOrder`, `Utf8`, `Xml` and
`Primes`. A C string is the sequence of its characters before the terminating NUL. Integers are unbounded except
where a width matters: the random generator and UTF-8 use 32 bits, the matcher knows the largest `size_t`.
A `char` is signed, as on x86, which decides what `Xml` takes for a valid character.

**The WebSocket frame.** `WebSocket` represents the overlaid union as sixteen bytes on a little-endian host.

## Where the code differs from what it promises

- Regular expressions (`test/gtest/src/gtest-port.cc:444`): a pattern that ends in an escaped dollar sign gets no
  end anchor, so a full match accepts a longer string. `Regex.FullMatchIsWholeMatch` shows that these patterns are
  exactly the ones that go wrong.
- Externalized descriptors (`src/Node.cxx:55-64`): when several sources lead to one descriptor of a launch, the least
  one is handed on, while moving the sources would let the greatest one win (`src/Node.cxx:38-47`).
  `HandDown.PassFdAgrees` says when that makes a difference, `HandDown.ExternalizedExample` shows a launch in which it does.
- String literals (`test/gtest/src/gtest-printers.cc:144`): a NUL is printed as `\0`, which swallows octal digits
  that follow. `Printers.PrintCharsAsStringTo` round-trips exactly the strings without a NUL before an octal digit.
- WebSocket sizes (`examples/ws/src/ws/get_ws_payload_size.c:5-6`): a 64-bit size is read through the 16-bit member
  and loses its low 48 bits, although the header that was written is right. `WebSocket.ReadBackIsExact` gives the
  sizes that survive, `WebSocket.Frame.LostSizeExample` the first that does not.
- Prime tables (`test/gtest/samples/prime_tables.h:69-75`): `GetNextPrime` of a negative number is -1 in the table that
  calculates on the fly, because its loop does not start at 0. `Primes.HybridPrimeTable.GetNextPrime` states
  for which arguments the answer is the next prime, `Primes.NoPrimeAboveMinusOneExample` shows one for which it is not.
- Test order (`test/gtest/src/gtest-internal-inl.h:586-589`): the constant accessor looks the index up and then ignores
  it. `TestOrder.UnitTestImpl.AccessorsAgree` says where the two accessors agree, `TestOrder.AccessorsDifferExample` runs
  a shuffle after which they do not.
- UTF-8 (`test/gtest/src/gtest.cc:1430-1441`): the comment calls code points above 0x10FFFF invalid; the code encodes up to
  0x1FFFFF. `Utf8.PromiseKept` shows that the comment is right for exactly the code points outside 0x110000 to 0x1FFFFF,
  and `Utf8.BeyondUnicodeExample` gives the first wrong one.

## Model

| member | source | states |
|---|---|---|
| LifecycleTheorems.EveryInstanceDeliversMeaning | src/Node.cxx:24-36 | over every schedule whose exits obey a script, every instance of a run, members and stages started in the middle of it included, reports nothing until it ends, and then once the recursive meaning of its node at its position, and that code once to each external handler |
| LifecycleTheorems.StartedRunDeliversMeaning | src/Node.cxx:24-36 | the same for the node that was started, from its start on: the handlers that are told are those that were pending then |
| LifecycleTheorems.WatcherIsTold | src/Node.cxx:115-117 | a handler that is registered before a start is told the meaning of the run when it is over |
| LifecycleTheorems.RunMeans | src/SequenceNode.cxx:34-53 | the same from any state of a run on: the outcome of every instance, and its position, do not depend on the order of exits |
| LifecycleTheorems.MoveMeans | src/LaunchNode.cxx:8-17 | a single move reports nothing about an instance that it does not end, the meaning of one that it ends, and keeps the run on its script |
| LifecycleMeaning.FinishMeans | src/Node.cxx:24-36 | in the re-entrant callbacks of one finished instance, every instance that ends reports its own meaning once, and no other is reported |
| LifecycleMeaning.ProceedMeans | src/SequenceNode.cxx:34-53 | a sequence that ends with a stage reports the first non-zero code, or 0 after the last stage; one that goes on reports nothing |
| LifecycleMeaning.OnSubNodeDeathMeans | src/LaunchNode.cxx:8-17 | a launch reports 0, when its last member is gone |
| LifecycleTheorems.AwaitedByItsOwner | src/LaunchNode.cxx:47-52 | a running instance is waited for by the tables of exactly one parent instance, the one whose handler it carries, and by none if it was started from outside |
| LifecycleTheorems.EntriesRun | src/SequenceNode.cxx:48-52 | every table entry leads to a running instance that will report back |
| LifecycleTheorems.GroupsWait | src/LaunchNode.cxx:47-58 | a running group always waits for something |
| LifecycleTheorems.ProcessesAreInstances | src/ExecutableNode.cxx:102-103 | live process ids and running instances of executables correspond one to one |
| LifecycleRuns.RunsKeep | src/Node.cxx:77-89 | the invariant of the tables holds in every state that any run reaches |
| LifecycleRuns.NextKeeps | src/ExecutableNode.cxx:30-41 | each start, reap, link or registration keeps the invariant |
| LifecycleRuns.ReapKeeps | src/ExecutableNode.cxx:30-41 | a reap removes exactly the instance of the process and whatever finishes with it, and keeps the invariant |
| LifecycleRuns.StartKeeps | src/Node.cxx:77-89 | a start adds one root instance under a fresh number with the pending handlers, and the weight of its leaves |
| LifecycleStarting.LeastNumber | src/Node.cxx:77-80 | every start, nested ones included, takes the least number that no running instance of its node has |
| LifecycleSequences.SequencesStartPrefixes | src/SequenceNode.cxx:34-53 | over every run with overlapping instances: what a sequence instance has started since its own start is a prefix of its order, a new instance for each place, and at stage k its first k stages completed with 0, one after the other |
| LifecycleSequences.StagesPassInOrder | src/SequenceNode.cxx:34-53 | the same from any state of a run on |
| LifecycleSequences.MovePasses | src/SequenceNode.cxx:48-52 | a move leaves a surviving sequence at its stage, or is an exit below its current stage, which completed with 0, and takes it to a new instance of the next one |
| LifecycleRuns.SequencesMoveByOwnStage | src/SequenceNode.cxx:34-53 | one reap changes a surviving sequence only if the process was below its own current stage, and then to its next stage after that stage ended with 0 |
| LifecycleCascade.FinishClimbs | src/Node.cxx:24-36 | the exact course of a cascade: which groups end with a finished instance and with what code, where it stops, what changes there, and that nothing else does |
| LifecycleRuns.ReapClimbs | src/ExecutableNode.cxx:30-41 | every reap takes this course, and ends only what is above the process |
| LifecycleHistory.FinishLogs | src/Node.cxx:24-36 | the events of a cascade, all of them and in order: the end of an instance to its general and external handlers, and then, if that ends the group that waits for it, the same for the group |
| LifecycleRuns.ReapLogs | src/ExecutableNode.cxx:30-41 | what every reap appends to the log, event by event |
| LifecycleHistory.MovedCompleted | src/SequenceNode.cxx:39-52 | inside one cascade every advanced sequence has the completion of its own stage with code 0 among these events |
| LifecycleTheorems.ExitsAreBounded | src/SequenceNode.cxx:39-52 | every reap takes at least one from the weight, and exactly one if all codes are 0 |
| LifecycleLength.RunEndsWithinLeaves | src/ExecutableNode.cxx:38-41 | however an instance is started and whatever runs beside it, at most as many processes below it are reaped as its node has leaves, fewer while it runs, and if they all exit with 0 it is over after exactly that many |
| LifecycleLength.RunTakes | src/SequenceNode.cxx:39-52 | over every run, what an instance still needs goes down with every exit below it and with nothing else |
| LifecycleLength.MoveTakes | src/LaunchNode.cxx:11-16 | one exit brings every instance above it closer to its end, by exactly one if the code is 0; every other move and instance is left as it was |
| LifecycleLength.FreshNeedsLeaves | src/Node.cxx:77-89 | an instance that was just started, at any depth, needs the leaves of its node |
| LifecycleTheorems.IdleIsWeightless | src/LaunchNode.cxx:11-16 | no process is live exactly when nothing runs |
| LifecycleRuns.ReapWeighs | src/ExecutableNode.cxx:38-41 | one reap lowers the measure over live processes and unstarted stages |
| LifecycleMeasure.StartupAdds | src/Node.cxx:77-89 | starting a node adds its leaves to the measure |
| LifecycleMeasure.FinishWeighs | src/Node.cxx:24-36 | the callbacks never raise the measure, and keep it when the code is 0 |
| LifecycleStarting.StartupKeeps | src/Node.cxx:77-89 | starting a subtree records every member with its handler before it can report, moves the pending handlers into one instance, and changes nothing else |
| LifecycleStarting.StartLaunchKeeps | src/LaunchNode.cxx:20-59 | after the loop over the members the launch waits for all of them |
| LifecycleStarting.StartSequenceKeeps | src/SequenceNode.cxx:69-81 | a started sequence waits for its first stage |
| LifecycleStarting.StartProcessKeeps | src/ExecutableNode.cxx:84-104 | a started process is the one live process of its instance |
| LifecycleFinishing.FinishKeeps | src/Node.cxx:24-36 | a dying instance leaves the tables, and the callbacks it triggers restore the invariant for everything else |
| LifecycleFinishing.OnSubNodeDeathKeeps | src/LaunchNode.cxx:8-17 | a dead member leaves its launch, which finishes exactly when it was the last |
| LifecycleFinishing.ProceedKeeps | src/SequenceNode.cxx:34-53 | a sequence whose stage died either stops and leaves the tables or waits for its next stage |
| Descriptors.FirstFree | src/Node.cxx:77-80 | the least unused number, for instance numbers and for descriptors |
| Descriptors.OpenPipe | src/LaunchNode.cxx:26-27 | the two lowest closed descriptors are opened, the two ends of one new pipe |
| DescriptorLaws.OverwriteIsSimultaneous | src/Node.cxx:38-47 | moving the sources in ascending order is a simultaneous assignment: each target gets what its greatest source held before the first move, everything else is unchanged |
| DescriptorLaws.ProgramGetsAssignment | src/ExecutableNode.cxx:84-99 | an executed program has exactly the linked descriptors and those that arclaunch was given without close-on-exec |
| DescriptorLaws.PassingKeepsAssignment | src/Node.cxx:49-53 | a map handed to a holder with an empty map stands for the same assignment there |
| DescriptorLaws.PassingKeepsProgram | src/Node.cxx:49-53 | so a program started with the child's map is given exactly what one with the parent's map would be |
| DescriptorLaws.LinkOpens | src/Node.cxx:119-142 | a link opens exactly one descriptor, the first closed one above its target, for the file of its source; of a closed source it does nothing |
| DescriptorLaws.LinkConserves | src/Node.cxx:119-142 | a link keeps every descriptor accounted for, each entry above its target and with one owner |
| LaunchWiring.StartupSpares | src/Node.cxx:77-89 | starting a node leaves the map of an unrelated node, or of a running sequence, and its descriptors as they are |
| LaunchWiring.StartupUndisturbed | src/Node.cxx:77-89 | starting a node, nested starts included, leaves every live process with the program table it was given |
| DescriptorLaws.LinkElsewhere | src/Node.cxx:119-142 | a link disturbs nothing that any program will see under another number |
| DescriptorLaws.CloseConserves | src/Node.cxx:17-21 | closing a map closes exactly what its holder owns |
| DescriptorLaws.PassFdConserves | src/Node.cxx:55-64 | handing on one entry keeps every descriptor accounted for |
| DescriptorLaws.WireLinkJoins | src/LaunchNode.cxx:24-32 | one turn of the linkage loop joins the two members by a pipe of which no end was open before |
| DescriptorLaws.LinkageJoins | src/LaunchNode.cxx:24-32 | after the loop every link with its own ends joins its two members, each by a different pipe |
| HandDown.AllStagesAlike | include/SequenceNode.hxx:6-7 | start a sequence node and let anything happen: the process of its first stage and of every later one is given exactly the descriptors that were linked to the node before the start |
| HandDown.RunHandsOn | src/SequenceNode.cxx:34-53 | over every run, each stage that a sequence moves on to is given exactly what the map of the sequence stood for at the beginning of the run |
| HandDown.NextHandsOn | src/SequenceNode.cxx:34-53 | in every step a surviving sequence keeps its map and descriptors, and the process of a stage that it starts in that step is given exactly that, whatever else the cascade of callbacks closes or starts |
| HandDown.StageGets | src/SequenceNode.cxx:49-52 | the new process of any stage is given exactly what the map of its sequence stands for |
| HandDown.SequenceTakesOver | src/SequenceNode.cxx:69-81 | a started sequence takes over exactly what was linked to its node |
| HandDown.PassFdSees | src/Node.cxx:55-64 | an externalized descriptor shows the member the file of the least source |
| HandDown.PassFdAgrees | src/Node.cxx:55-64 | that is what a program of the launch would see itself if and only if the least and the greatest source refer to the same file |
| HandDown.PassFdNothing | src/Node.cxx:55-64 | without a source nothing is handed on, opened or changed |
| HandDown.ExternalizedExample | src/Node.cxx:55-64 | two links to one descriptor of a launch, in a state that a run reaches: the member is given the first file, a program of the launch would see the second |
| HandDown.LaunchHandsDown | src/LaunchNode.cxx:34-52 | starting a launch gives the new process of an externalized member that file, after the linkage and the starts of all other members |
| HandDown.LaunchHandsNothing | src/LaunchNode.cxx:34-37 | if the launch has no source for the outer descriptor, the member finds under the inner one exactly what arclaunch passes on to everyone |
| LaunchWiring.LaunchJoinsPrograms | src/LaunchNode.cxx:20-52 | starting a launch, nested starts included, leaves the new processes of the two members of every link between executables holding the two ends of one pipe, of which nobody had an end before |
| LaunchWiring.LaunchGives | src/LaunchNode.cxx:20-59 | the new process of every executable member is given exactly what the map of the member stands for after the linkage loop and the externalizations, whatever its siblings are |
| LaunchWiring.LaunchHandsNothingElse | src/LaunchNode.cxx:24-37 | under every number to which the launch hands nothing, that process finds what was linked to the member before, and if that is nothing, what arclaunch passes on to everyone |
| DescriptorRuns.RunsConserve | src/Node.cxx:72-89 | over every run the open descriptors are the given ones, unchanged, and the disjoint union of the maps, each entry above its target |
| DescriptorRuns.NothingLeaks | src/Node.cxx:17-21 | when nothing runs and no link is pending, exactly the initial descriptors are open |
| DescriptorRuns.StartupConserves | src/Node.cxx:77-89 | a start, nested starts included, keeps every descriptor accounted for |
| DescriptorRuns.FinishConserves | src/SequenceNode.cxx:39-46 | so do the callbacks of a finished instance, erased sequences included |
| Runtime.Process.LinkFd | src/Node.cxx:119-142 | the search loop and the duplication on the fields follow the function, and report a source that is not open |
| Runtime.Process.OverwriteFds | src/Node.cxx:38-47 | the loop over the map computes the moves whose effect `OverwriteIsSimultaneous` states |
| Runtime.Process.PassFds | src/Node.cxx:49-53 | the loop over the map follows the function |
| Runtime.Process.PassFd | src/Node.cxx:55-64 | the loop stops at the first entry that leads to the descriptor |
| Runtime.Process.CloseFds | src/Node.cxx:17-21 | closing on the fields follows the function |
| Runtime.Process.WireLinksOf | src/LaunchNode.cxx:24-32 | the linkage loop follows the function |
| Runtime.Process.PassExternalsOf | src/LaunchNode.cxx:34-37 | the externalization loop follows the function |
| Runtime.Process.FreeNumber | src/Node.cxx:77-80 | the loop finds the least free instance number |
| Runtime.Process.Startup | src/Node.cxx:77-89 | starting on the objects follows the function, number included |
| Runtime.Process.StartInstance | src/SequenceNode.cxx:69-81 | the start of each kind of node follows the function |
| Runtime.Process.StartProcess | src/ExecutableNode.cxx:84-104 | the forked program gets its table and the process its entries |
| Runtime.Process.StartLaunch | src/LaunchNode.cxx:20-59 | wiring and the loop over the members follow the function |
| Runtime.Process.StartStage | src/SequenceNode.cxx:48-52 | registering on a stage, handing it the descriptors and starting it follow the function |
| Runtime.Process.FinishInstance | src/Node.cxx:24-36 | running the handlers and erasing the instance follow the function |
| Runtime.Process.OnSubNodeDeath | src/LaunchNode.cxx:8-17 | the callback of a launch follows the function |
| Runtime.Process.ProceedWith | src/SequenceNode.cxx:34-53 | the callback of a sequence follows the function |
| Runtime.Process.Reap | src/ExecutableNode.cxx:30-41 | the signal handler follows the function |
| Runtime.Process.Run | src/ExecutableNode.cxx:30-41 | the objects follow every run, so the results about runs are results about the fields |
| Runtime.Process.StartAndRun | src/Node.cxx:77-89 | on the objects: the log shows the meaning of a started node exactly once, when its run is over |
| Runtime.Process.constructor | src/Node.cxx:69-70 | fresh nodes represent the state in which nothing runs |
| Regex.RecognisesGrammar | test/gtest/src/gtest-port.cc:257-311 | the one-flag recogniser accepts exactly the texts of the grammar: optional `^`, atoms with at most one repetition each, optional `$` |
| Regex.ValidateRegex | test/gtest/src/gtest-port.cc:257-311 | the validator loop decides the grammar |
| Regex.TextParses | test/gtest/src/gtest-port.cc:222-224 | the grammar is unambiguous: the text of an expression parses back to it |
| Regex.AtomDecided | test/gtest/src/gtest-port.cc:228-254 | the cases of the matcher decide what an atom stands for, which is defined by character codes and ranges |
| Regex.EscapeDecided | test/gtest/src/gtest-port.cc:222-224 | the escapes that are accepted are punctuation and the letters that name a class or a control character |
| Regex.EscapeClasses | test/gtest/src/gtest-port.cc:228-254 | what the matcher takes each class, each control character, an escaped punctuation character, `.` and any other character for |
| Regex.PlainPatternIsSubstring | test/gtest/src/gtest-port.cc:347-396 | a pattern without special characters is valid, occurs in a string if and only if it is a substring, and matches only itself fully |
| Regex.MatchRepetitionAndRegexAtHead | test/gtest/src/gtest-port.cc:320-342 | the repetition loop with its backtracking matches exactly when some prefix is in the language |
| Regex.MatchRegexAtHead | test/gtest/src/gtest-port.cc:347-373 | the head matcher decides whether a prefix is in the language of the items; it terminates on the items |
| Regex.MatchRegexAnywhere | test/gtest/src/gtest-port.cc:383-396 | the search finds an occurrence exactly when there is one that the anchors allow |
| Regex.RE.constructor | test/gtest/src/gtest-port.cc:417-448 | validity is the grammar, and the full pattern is the text with both anchors |
| Regex.Anchored | test/gtest/src/gtest-port.cc:428-447 | the buffer holds the anchored text, except after an escaped dollar sign |
| Regex.RE.PartialMatch | test/gtest/src/gtest-port.cc:412-414 | a partial match is an occurrence in the string |
| Regex.RE.FullMatch | test/gtest/src/gtest-port.cc:406-408 | a full match is membership of the whole string, or of a prefix after an escaped dollar sign |
| Regex.FullMatchIsWholeMatch | test/gtest/src/gtest-port.cc:444-447 | for every C string as pattern, full matches are whole matches for all C strings if and only if the pattern does not end in an escaped dollar sign |
| Regex.EscapedDollarExample | test/gtest/src/gtest-port.cc:444-445 | the pattern `\$` fully matches `$x` |
| Printers.ReadPrinted | test/gtest/src/gtest-printers.cc:142-206 | reading printed bytes as C literals gives them back without a NUL before an octal digit, and fewer bytes otherwise |
| Printers.PrintCharsAsStringTo | test/gtest/src/gtest-printers.cc:255-271 | the printing loop round-trips exactly the strings without a NUL before an octal digit, and prints plain bytes as they are |
| Printers.BytePrinted | test/gtest/src/gtest-printers.cc:142-206 | exactly the bytes from 0x20 to 0x7E except quote and backslash are printed as themselves, and exactly those without an escape of their own as hexadecimal escapes |
| Printers.PrintedIsPieces | test/gtest/src/gtest-printers.cc:260-269 | the literal is reopened between a hexadecimal escape and a hexadecimal digit, and nowhere else |
| Printers.AfterHex | test/gtest/src/gtest-printers.cc:262-267 | after a hexadecimal escape nothing that follows can be taken for one of its digits |
| Printers.NulBeforeOctalExample | test/gtest/src/gtest-printers.cc:144-146 | a NUL and the digit 1 come back as one byte |
| Filters.PatternMatches | test/gtest/src/gtest.cc:440-455 | the recursive matcher accepts exactly the strings that split into parts that the pattern characters stand for, although one branch keeps the pattern |
| Filters.PatternsJoin | test/gtest/src/gtest.cc:467-474 | the patterns of a filter are its parts between colons |
| Filters.MatchesFilter | test/gtest/src/gtest.cc:457-476 | the loop decides whether some pattern of the filter denotes the name |
| Filters.FilterMatchesTest | test/gtest/src/gtest.cc:480-506 | a test runs if and only if some positive and no negative pattern denotes its full name |
| Filters.PositiveFlag | test/gtest/src/gtest.cc:490-492 | a flag without `-` excludes nothing |
| Filters.NegativeFlag | test/gtest/src/gtest.cc:494-500 | a flag that starts with `-` selects exactly what the rest does not denote |
| Filters.MixedFlag | test/gtest/src/gtest.cc:490-500 | `positive-negative` selects what the one denotes and the other does not |
| Filters.DisabledNames | test/gtest/src/gtest.cc:153 | the filter for disabled tests denotes the names that start with `DISABLED_` or contain `/DISABLED_` |
| Sharding.FilterTests | test/gtest/src/gtest.cc:4455-4506 | the loops record in every test and case what the names and the shard decide, and return how many tests are recorded as to be run, which is how many the shard selects |
| Sharding.JudgeTest | test/gtest/src/gtest.cc:4474-4491 | a test is disabled by its own name or that of its case; a disabled test is runnable only on request, any other one if and only if the filter selects its full name |
| Sharding.ShardsPartition | test/gtest/src/gtest.cc:4444-4446 | every runnable test is selected on exactly one shard and any other test on none |
| Sharding.ShardSize | test/gtest/src/gtest.cc:4493-4499 | a shard gets the quotient, and one more if its index is below the remainder |
| Sharding.ShardsAreEven | test/gtest/src/gtest.cc:4493-4505 | the counts of all shards add up to the number of runnable tests, and any two differ by at most one |
| Shuffling.Random.Generate | test/gtest/src/gtest.cc:291-305 | one step of the generator in 32-bit arithmetic, whose wrap-around does not show, with a result below the range |
| Shuffling.DrawsInClosedForm | test/gtest/src/gtest.cc:291-305 | every number that is drawn for a shuffle, and the state that is left, as a formula in the seed: the recurrence solved modulo 2 to the 31 |
| Shuffling.ShuffleRange | test/gtest/src/gtest-internal-inl.h:310-328 | the in-place loop is the shuffle function of the numbers that the generator gives for the widths from the whole range down to 2, inside the range only |
| Shuffling.ShufflePermutes | test/gtest/src/gtest-internal-inl.h:323-327 | a shuffle is a permutation |
| Shuffling.EveryOrderIsDrawn | test/gtest/src/gtest-internal-inl.h:321-327 | every order of the elements is the result of some draws |
| Shuffling.OrderFixesDraws | test/gtest/src/gtest-internal-inl.h:321-327 | different draws give different orders, so the shuffle is fair if the draws are |
| Shuffling.StepsAreTheShuffle | test/gtest/src/gtest-internal-inl.h:323-327 | swapping step by step from the top is the recursive shuffle |
| TestOrder.UnitTestImpl.GetTestCase | test/gtest/src/gtest.cc:4173-4206 | a known name changes nothing; a new case is registered, and the list stays the death cases followed by the others, each in order of registration |
| TestOrder.PlacedInOrder | test/gtest/src/gtest.cc:4190-4202 | inserting after the last death case, or at the end, keeps both orders |
| TestOrder.UnitTestImpl.ShuffleTests | test/gtest/src/gtest.cc:4601-4613 | the indices stay a permutation that maps each block onto itself, and so do those of every test case; which ones they are follows from the state of the generator, block after block and case after case |
| TestOrder.BlocksFromStream | test/gtest/src/gtest.cc:4602-4607 | the first numbers after the seed shuffle the death test cases, and those that follow the other test cases |
| TestOrder.CasesFromStream | test/gtest/src/gtest.cc:4609-4612 | the numbers that follow shuffle the tests of one case after the other |
| TestOrder.DeathNames | test/gtest/src/gtest.cc:158 | the death test cases are those whose name ends in `DeathTest` or contains `DeathTest/` |
| TestOrder.UnitTestImpl.UnshuffleTests | test/gtest/src/gtest.cc:4616-4623 | all indices are the identity again |
| TestOrder.UnitTestImpl.DeathTestsRunFirst | test/gtest/src/gtest.cc:4599-4607 | however the list was shuffled, the test cases at the first positions are the death test cases |
| TestOrder.UnitTestImpl.EveryCaseRunsOnce | test/gtest/src/gtest.cc:4601-4613 | every test case is run exactly once |
| TestOrder.UnitTestImpl.AccessorsAgree | test/gtest/src/gtest-internal-inl.h:584-596 | the two accessors agree exactly where the shuffle left the index in place |
| TestOrder.AccessorsDifferExample | test/gtest/src/gtest-internal-inl.h:584-596 | two test cases shuffled from seed 1, after which the accessors give different ones at the first position |
| TestOrder.TestCase.AddTestInfo | test/gtest/src/gtest.cc:2423-2426 | a new test goes to the end, and its index is in place |
| TestOrder.TestCase.ShuffleTests | test/gtest/src/gtest.cc:2463-2465 | the test indices are shuffled, and stay a permutation |
| TestOrder.TestCase.UnshuffleTests | test/gtest/src/gtest.cc:2468-2472 | the test indices are the identity again |
| Utf8.OneRoundTrip | test/gtest/src/gtest.cc:1436-1462 | an encoded code point decodes to itself, and its encoding is the shortest |
| Utf8.InvalidOnlyBeyond | test/gtest/src/gtest.cc:1436-1439 | a code point is reported as invalid if and only if it is above 0x1FFFFF |
| Utf8.PromiseKept | test/gtest/src/gtest.cc:1433-1439 | Unicode code points are encoded and all others reported as invalid, except exactly those from 0x110000 to 0x1FFFFF |
| Utf8.BeyondUnicodeExample | test/gtest/src/gtest.cc:1433-1439 | 0x110000 is encoded in four bytes |
| Utf8.AllRoundTrip | test/gtest/src/gtest.cc:1436-1462 | a whole encoding decodes to its code points exactly when all are encodable |
| Utf8.WideStringToUtf8 | test/gtest/src/gtest.cc:1500-1521 | the loop's output decodes to the code points of the input up to the first NUL or the limit, pairs combined, exactly when all are encodable; always for 16-bit units |
| Utf8.Utf16RoundTrip | test/gtest/src/gtest.cc:1471-1485 | combining surrogate pairs inverts UTF-16 |
| Utf8.PairsAreEncodings | test/gtest/src/gtest.cc:1471-1485 | two units are combined if and only if they are the UTF-16 encoding of one code point, and into that |
| Utf8.WideUnitsAreCodePoints | test/gtest/src/gtest.cc:1471-1474 | units of four bytes are never combined |
| Xml.ValidIsKept | test/gtest/src/gtest.cc:3020-3028 | a byte is valid if and only if it is 9, 10, 13 or from 0x20 to 0x7F: the test on signed characters drops the others |
| Xml.EscapedReads | test/gtest/src/gtest.cc:3139-3180 | reading escaped text or attribute values back gives these characters of the original, in order |
| Xml.EscapedIsSafe | test/gtest/src/gtest.cc:3143-3176 | no other characters are written, special ones only as references, and text without special ones is written as it is |
| Xml.EscapeXml | test/gtest/src/gtest.cc:3139-3180 | the escaping loop has these properties; text of valid characters is read back whole |
| Xml.RemoveInvalidXmlCharacters | test/gtest/src/gtest.cc:3185-3194 | keeps exactly these characters, in order; text of valid characters is not changed |
| Xml.OutputXmlCDataSection | test/gtest/src/gtest.cc:3246-3263 | the sections that are written read back as the data, whatever it contains |
| Xml.SegmentReads | test/gtest/src/gtest.cc:3251-3259 | no section ends before the terminator that was written after it, even if its text ends in brackets |
| Primes.OnTheFlyPrimeTable.IsPrime | test/gtest/samples/prime_tables.h:58-67 | trial division decides primality |
| Primes.OnTheFlyPrimeTable.GetNextPrime | test/gtest/samples/prime_tables.h:69-75 | the least larger prime for arguments from 0 on, -1 for negative ones |
| Primes.NoPrimeAboveMinusOneExample | test/gtest/samples/prime_tables.h:69-75 | for -1 the table that calculates on the fly answers -1, although 2 is the next prime |
| Primes.LargerPrime | test/gtest/samples/prime_tables.h:69-75 | there is always a larger prime, so the search ends |
| Primes.IsPrime | test/gtest/samples/sample1.cc:47-68 | odd trial division with the cofactor test decides primality |
| Primes.PreCalculatedPrimeTable.constructor | test/gtest/samples/prime_tables.h:83-86 | the table is right for every number it holds |
| Primes.PreCalculatedPrimeTable.CalculatePrimesUpTo | test/gtest/samples/prime_tables.h:102-114 | the sieve leaves exactly the primes |
| Primes.CrossedOutBefore | test/gtest/samples/prime_tables.h:106-107 | a number that is crossed out can be skipped: its multiples are crossed out already |
| Primes.PreCalculatedPrimeTable.IsPrime | test/gtest/samples/prime_tables.h:89-91 | membership in the table |
| Primes.PreCalculatedPrimeTable.GetNextPrime | test/gtest/samples/prime_tables.h:93-99 | the least larger prime if the table holds one, otherwise -1 |
| Primes.HybridPrimeTable.IsPrime | test/gtest/samples/sample8_unittest.cc:62-67 | the combined table decides primality |
| Primes.HybridPrimeTable.GetNextPrime | test/gtest/samples/sample8_unittest.cc:69-75 | for exactly which arguments the answer is the least larger prime, and -1 otherwise |
| WebSocket.Reversell | examples/ws/src/utility/reversell.c:8-26 | the swaps reverse the bytes of the word |
| WebSocket.ReversedTwice | examples/ws/src/utility/reversell.c:8-26 | reversing twice changes nothing |
| WebSocket.ReversedIsNetworkOrder | examples/ws/src/utility/reversell.c:8-26 | the reversed bytes of a little-endian word are the word in network byte order |
| WebSocket.Frame.SetPayloadSize | examples/ws/src/ws/set_ws_payload_size.c:3-43 | the mask bit and the mask survive any change of size class, the header is the shortest, says the size on the wire, and reads back what it can |
| WebSocket.LongReads | examples/ws/src/ws/get_ws_payload_size.c:5-6 | a 64-bit size read through the 16-bit member loses its low 48 bits |
| WebSocket.ShortReads | examples/ws/src/ws/get_ws_payload_size.c:7-8 | a 16-bit size read through the 64-bit member is right |
| WebSocket.ReadBackIsExact | examples/ws/src/ws/get_ws_payload_size.c:3-11 | a size reads back exactly if and only if it fits 16 bits or is a multiple of 2 to the 48 |
| WebSocket.Frame.LostSizeExample | examples/ws/src/ws/get_ws_payload_size.c:5-6 | 65536 is written right and reads back as 0 |
| WebSocket.MaskBesideSize | examples/ws/src/ws/get_ws_frame_mask.c:5-16 | the mask never overlaps the bytes that the size is read from |
| WebSocket.Frame.MaskEndsHeader | examples/ws/src/ws/get_ws_header_size.c:3-24 | the mask is the last four bytes of the header of a masked frame |
| WebSocket.Frame.MaskFrame | examples/ws/src/ws/mask_ws_frame.c:4-24 | masking sets the bit, stores the mask and applies it to the payload; a masked frame is left alone |
| WebSocket.Frame.UnmaskFrame | examples/ws/src/ws/unmask_ws_frame.c:4-19 | unmasking clears the bit and applies the stored mask |
| WebSocket.Frame.MaskAndUnmask | examples/ws/src/ws/unmask_ws_frame.c:4-19 | unmasking undoes masking for any random bytes |
| WebSocket.XorIsExclusiveOr | examples/ws/src/ws/mask_ws_frame.c:22 | a bit of the result is set if and only if the two bits differ |
| WebSocket.MaskedBits | examples/ws/src/ws/mask_ws_frame.c:20-23 | so masking flips exactly the bits of the payload that are set in the mask byte whose turn it is |
| WebSocket.MaskedZeros | examples/ws/src/ws/mask_ws_frame.c:20-23 | masking a payload of zeros gives the mask over and over |
| WebSocket.MaskedTwice | examples/ws/src/ws/mask_ws_frame.c:20-23 | applying a mask twice gives the payload back |

## Left out

- Empty groups inside other groups: an empty launch or sequence completes while its parent is still starting it, and
  the parent then records an instance that is gone; a tree is required to have no empty groups.
- `waitFor` and `waitForInstance` (src/Node.cxx:103-109, src/ExecutableNode.cxx:107-123): they block until the environment
  delivers exits, and would add only an assumption about it.
- The real `fork`, `execve`, `wait` and signals, a failing `fork`, and the choice among executable paths: a start gives a
  fresh process id, and an exit is a step with any code.
- Runtime.Process.LinkFd: returns false where the source throws when the duplicated descriptor is not open, and does
  not model the unwinding; within the steps of a run the sources of links are open.
- The readability tests in `linkStdin`, `linkStdout` and `linkStderr` (src/Node.cxx:144-166), and a limit on the number of
  descriptors.
- Node destructors, and a completion handler that itself starts or links nodes from outside the tree.
- At src/SequenceNode.cxx:44-45 the instance number is read from an object that was just erased; the model reads it first.
- HandDown.AllStagesAlike: speaks of stages that are executables to which nothing else was linked; a stage that is itself
  a group takes over what it is handed by `HandDown.SequenceTakesOver` and `HandDown.LaunchHandsDown`, one level at a time.
- LaunchWiring.LaunchJoinsPrograms: joins members that are executables; the map of a member that is a group is wired in
  the same way (`DescriptorLaws.LinkageJoins`) and handed on when it starts.
- Runtime.Process.FinishInstance: the handlers of the instance are read once before the loop, not on every turn.
- Runtime.Node.constructor: one class has the fields of all kinds of node, in place of a class hierarchy.
- `SocketNode`, `FileNode`, `ScriptNode`, `NodeContext` and `main`: sockets, files, XML construction and the command line.
- The members of a launch are started in the order of the tree; the source starts them in the order of their names.
- Regex.ValidateRegex: the texts of the error messages are not modelled, and a null pattern is treated in `Regex.RE`.
- Printers.PrintCharsAsStringTo: prints bytes; the instance of the template for wide characters is not modelled.
- Utf8.OneRoundTrip: bit operations are written as arithmetic on numbers.
- Xml.EscapeXml: line ends in text, which an XML processor would normalize, are not modelled, and a character
  reference is read with two digits.
- Sharding.FilterTests: the shard and the flags are parameters; reading them from the environment is not modelled.
- Primes.OnTheFlyPrimeTable.GetNextPrime: integers are unbounded, so the loop's test for overflow never ends it.
- WebSocket connections, handlers, and sending and receiving of frames; `random` is a parameter of
  `WebSocket.Frame.MaskFrame`.
- The rest of the test framework: assertions, death tests, parameters, reporting, and its own unit tests.
