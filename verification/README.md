# Verified model of the `at` orchestration cores

`at` is a command line around agent processes. Under it are several small stateful cores with real invariants: a
kanban board that many processes share through lock files and leases, the compose state machine with its rounds and
its resume, a glob compiler that emits regular-expression text, a feedback store bounded in two ways, two pairs of
printers and parsers, three stream protocols, process forests and a round-robin scheduler. This project models those
cores in Dafny and proves what they are for. `dafny verify dfyconfig.toml` checks all of it.

Code that updates state is modelled by classes and methods with loops (`TaskBoard`, `BoardDoc`, `Machine`, `Store`,
`Client`, `Hub`, `StateFile`, `Runner`, and the loops of the glob compiler, the duration printer, the plan editor and
the process walks). Each is proved equal to a function of the old state, and the laws are lemmas about those functions.

| module | what it models |
|---|---|
| `Text` | separators, trimming, decimal numbers, sequence edits |
| `Regex`, `Glob`, `GlobSegments` | the `--scope` glob compiler, through the pattern text it emits |
| `Kanban`, `Gating`, `LockNames`, `BoardProtocol` | board rows and selection, what their cells say, lock names, the steps of N processes on one board |
| `BoardSafety`, `BoardRecovery`, `MarkOrder` | what every step and every run of them keeps, claims of one process and recovery after a crash, which rows claims mark |
| `Claiming`, `Drain`, `Answers`, `DrainLoop` | what a claim hands out, a run of the board loop round by round, what it makes of the answers it gets, and the loop as a process |
| `Stuck`, `DrainEnds`, `StartOrder`, `Stranded` | rows the loop cannot finish, when it ends, the order in which it starts tasks; chains and cycles of blockers |
| `BoardOps`, `BoardAdd`, `AddCells` | add, status, remove, clean |
| `Verdict`, `Compose`, `Rounds`, `Checklist`, `Composer` | the verdict file, the compose machine as a function, the order of its phases, its IMPLEMENT phase item by item, and the machine as a process with fields |
| `Feedback` | pruning and eviction |
| `Duration`, `DurationForms`, `TimeSection`, `PlanTime`, `PlanLines`, `PlanTimeEdit` | durations and their texts, and the Time section of a plan and its lines |
| `Framing`, `Requests`, `EventHub`, `EventReplay` | socket frames, pending requests, event numbers and replay |
| `ProcessTree`, `RoundRobin` | process forests, agent selection and retries |

## Assumptions

- Creating a lock file exclusively together with its content is one step, and so is reading a dead holder's lock file
  and unlinking it. Everything else in `BoardProtocol` interleaves freely, and a process may crash between any two steps.
- Agents, the test command, the code index, worktrees, merges, JSON parsing, the encoded size of an entry and random
  ids are parameters: the results hold for every behaviour they may have.
- Numbers are exact (`int`, `real`); text is a sequence of characters; ASCII letters have case, others do not.

## Where the code and its promises part

- The compiler's comments let `**` match everything, but the emitted `.` refuses line terminators. `DocumentedMeaning`:
  they hold on a path exactly when it has no line terminator.
- The header of that file says `**` takes zero or more segments. `HeaderMeaning`: on the other paths that is what happens
  exactly unless the glob ends in `**` and what comes before matches the whole path and nothing shorter;
  `HeaderPromisesMore` has the glob `a/**` and the path `a`.
- The comment on leases says that two tasks, of one board or of two, never collide. `LeaseCollision`: two of one board
  share a file exactly when their ids agree after lower-casing and turning `.` into `-`; `LeaseCollisionExample` has `T1`
  and `t1`. `LeasesOfBoardsCollide` has the condition for two boards; `/b.md` and `/b-md` share the board lock and all
  leases (`BoardCollisionExample`). Exclusivity survives (`TaskExclusivity` covers the shared file), so the cost is that
  only one of them can be worked on at a time.
- A finished task's lease is said to be given back. `FinishedLeaseGoes`: exactly when the id has no slash; otherwise it is
  created in one directory and looked for in another (`LeaseIsFound`), and stays until the process ends.
- A task is said to start only when its known blockers are Done. A claim takes a row, but marks and finishes the first one
  with its id. `RunsStartInOrderExactly` for one process and `MarksExactly` for many: whatever the statuses and leases, the
  task that starts is the unblocked one exactly if every row is the first with its id. `UnblockedExactly` and
  `EvolvesExactly` give the condition row by row. On the board `TWINS` a task starts while its blocker is in Backlog
  (`TwinsStartBlocked`, `TwinsAreMarkedBlocked`). The board operations keep ids unique (`OpsKeepTidy`).
- `add` is described as an idempotent upsert. `AddIsIdempotent`: it is, on every board and with all other options,
  exactly when the id comes back from a comma list as one entry or as none, so always for an id without a comma
  (`AddWithoutCommaRepeats`); an id such as `a,b` (`CommaIdExample`) makes the cell
  longer every time (`LinkedForEver`).
- `add` is said never to touch Status. `AddKeepsStatus`: an existing Status stays exactly when it is not empty.
- Resume after a cut at a phase boundary continues the run. `ResumeContinues`: exactly when nothing was saved yet or
  `maxRounds` is positive; a fresh run accepts a smaller value and then writes a state file that resume refuses.
- An item whose agent is in flight is reattached, never started twice. `CrashInsideItem`: a crash inside an item leaves
  the phase as it would have been exactly when the item is already ticked, or its run is saved and still running when the
  new process looks. A run that is started but not saved, that ended while no process was there (`EndedRunStartsAgain`),
  or that was settled but not ticked, is followed by a second agent for the same item.
- Setting a plan field and reading it gives the value back. `SetThenParse`: exactly when the section has no second line
  of the field or its last one already gives that value; setting replaces the first line, reading takes the last
  (`TwoLinesDisagree`).
- `parseDuration` is said to read printed durations back exactly. `SurvivesExactly`: exactly the positive whole seconds.
- A drained board is said to leave tasks in Backlog only behind something Blocked or leased. `BehindObstacleExactly`:
  whatever the statuses and leases, that holds for exactly the boards whose known blockers form no cycle.
- The board loop need not end when two rows have one id, since a finish writes the first of them. `EndsWhateverHappens`:
  it ends, whatever the outside answers, exactly if a limit bounds it, or it does not loop, or every open row is the first
  with its id or is among rows that hold each other back for ever. `DuplicateIdNeverDrains` is a board of two rows that
  stays the same round after round.
- A daemon frame that is the JSON value `null` throws in the client's data handler and takes the process with it:
  `CrashesExactly`, `NullLineCrashes`.

## Model

| member | source | states |
|---|---|---|
| Text.SpacesListed | src/kanban/select.ts:21 | what separates names, and what trimming takes off, by code point |
| Text.LowerLetters | src/lock.ts:22 | lower case of the ASCII letters, letter by letter |
| Text.TrimCuts | src/kanban/ops.ts:179 | trimming takes white space off both ends and nothing else |
| Glob.GlobToRegExp | src/scope.ts:16-51 | for every glob and however it is written, with `/` or `\` and with or without `./` before it, the compiler's loop emits character by character the text that the pattern lemmas are about |
| Glob.NormaliseExactly | src/scope.ts:18 | every text is a way to write exactly one path: its slashes may lean either way and one `./` may stand before it |
| Glob.EmitStartsClean | src/scope.ts:38-48 | no emitted text starts with a quantifier, a closing group or an alternation: escaping leaves none astray |
| Glob.ReadSource | src/scope.ts:50 | the emitted text, read with the ECMA-262 pattern grammar, is a pattern, and it is the compiled one |
| Glob.EmittedTextAccepts | src/scope.ts:16-51 | for every glob and path, testing the emitted text as a pattern answers what a direct backtracking glob matcher answers |
| Glob.ViolationsAreExact | src/scope.ts:57-61 | the violations are the changed paths that no glob accepts, each as often and in the order it was changed, and none when there are no globs |
| Glob.ViolationsBySpelling | src/scope.ts:16-61 | for globs and paths however written, the violations are the paths, as written, whose plain form no plain form of a glob matches |
| Glob.PlainViolations | src/scope.ts:57-61 | plain paths and globs are matched as they stand |
| Glob.GlobSpellings | src/scope.ts:16-18 | a glob means the same with `./` before it and with slashes leaning either way |
| Glob.PathSpellings | src/scope.ts:59 | a changed path written so is a violation, reported as it was written, exactly if the plain path is one |
| GlobSegments.CompiledIsSegmentwise | src/scope.ts:24-40 | when every `**` is a whole segment and the path has no empty one, the compiled matcher works segment by segment: leading and middle `**` take zero or more segments, a trailing one takes one or more, `*` and `?` stay inside |
| GlobSegments.DocumentedMeaning | src/scope.ts:24-33 | what the comments in the compiler say of `**`, zero or more segments before a slash and everything at the end, holds on exactly the paths without a line terminator |
| GlobSegments.HeaderMeaning | src/scope.ts:5 | on those paths the header's zero or more segments for every `**` is what the compiler accepts, exactly unless the glob ends in `**` and the segments before it match the whole path and no shorter part of it |
| GlobSegments.HeaderPromisesMore | src/scope.ts:5 | the header promises that the path `a` is in the scope `a/**`, and the compiler refuses it |
| Kanban.BacklogCandidatesExact | src/kanban/select.ts:35-44 | the candidates are exactly the Backlog rows whose known blockers are all Done, in claim order |
| Kanban.CandidatesAreStable | src/kanban/select.ts:35-44 | each candidate is listed as often as it is on the board, and candidates that tie in priority and number stay in board order |
| Kanban.FinishedCells | src/compose/kanban-source.ts:193-205 | a finish writes the status on the first row with the id, and the plan path only if the status is Blocked, the board has the column and the cell was empty or `-`; every other cell and row stays |
| Gating.BlockersAreNames | src/kanban/select.ts:18-24 | a Blocked By cell made of names with any mix of commas and white space between, before and after them names exactly those |
| Gating.NamesGate | src/kanban/select.ts:18-44 | a Backlog row with such a cell is never the claimed row while the first row of one of its names is not Done, and is a candidate as soon as there is none |
| Gating.ClaimedByPriority | src/kanban/select.ts:35-44 | the row a claim starts is not outranked by any it could have started, High before Medium before Low before all other texts, and among equals none has a smaller number |
| Gating.NumberOfId | src/kanban/types.ts:56-59 | the number of an id is what follows its T, in either case |
| LockNames.LeaseIsNotBoardLock | src/compose/kanban-source.ts:52-54 | no lease, created or looked for, is its board's own lock |
| LockNames.LockCollision | src/lock.ts:6-32 | two paths have one lock file exactly if they lie in one directory and agree after dropping a leading slash, lower-casing and turning `/` and `.` into `-` |
| LockNames.LockNameReads | src/lock.ts:21-25 | a lock is named by its path without a leading slash, in lower case, with a hyphen for each slash and dot, and `.lock` after it |
| LockNames.LockLiesBeside | src/lock.ts:6-8 | it lies in the directory `locks` beside the path |
| LockNames.LeaseIsFound | src/compose/kanban-source.ts:59-90 | a lease is read and removed where it was created exactly if the id has no slash |
| LockNames.LeaseCollision | src/compose/kanban-source.ts:59-61 | two leases of a board, for ids without a slash, share a file exactly when the ids agree after lower-casing and turning `.` into `-` |
| LockNames.LeasesOfBoardsCollide | src/compose/kanban-source.ts:49-54 | leases of any two boards and ids share a file exactly when their directories are one and the rest of the two paths reads alike |
| LockNames.LeaseCollisionExample | src/lock.ts:21-25 | T1 and t1 share a lease file |
| LockNames.BoardCollisionExample | src/lock.ts:21-25 | `/b.md` and `/b-md` share the board lock and the lease of every id without a slash |
| BoardSafety.LockLeaves | src/lock.ts:66-72 | a step removes no lock file that a live process other than the mover owns |
| BoardSafety.StepKeepsInv | src/compose/kanban-source.ts:59-184 | every step of every process, crashes and steals included, keeps: sections own the board lock, task holders own the lease, computed documents are based on the current board, the board is the replay of the log |
| BoardSafety.MutualExclusion | src/lock.ts:133-140 | over every interleaving, two live processes are never both in a board section |
| BoardSafety.TaskExclusivity | src/compose/kanban-source.ts:137-184 | over every interleaving of queue claims, named claims, finishes, releases and crashes, two live processes never hold one task, nor two tasks whose leases share a file |
| BoardSafety.LeaseNeverStolen | src/compose/kanban-source.ts:93-102 | a live holder keeps its task and its lease through every step of everyone else; the only lock files that go are those of the dead, the mover's board lock on leaving its section, and the mover's own lease when it has finished |
| BoardSafety.Linearizable | src/kanban/board.ts:54-69 | the board is always the fold of the completed sections in lock order, and a save applies its effect to the very board it overwrites: no update is lost, whoever crashes where |
| BoardSafety.QueueStartsUnblocked | src/compose/kanban-source.ts:161-180 | whatever the interleaving, when the queue marks a Backlog task, a row with its id is in Backlog with all known blockers Done on the board it marks; if no other row has the id, that is the row marked |
| MarkOrder.MarksExactly | src/compose/kanban-source.ts:161-180 | over all boards, statuses and schedules with the same ids and blockers, the row a queue claim marks is in Backlog with all known blockers Done exactly if every row is the first with its id |
| MarkOrder.TwinsAreMarkedBlocked | src/compose/kanban-source.ts:174-180 | a board and a schedule on which the queue marks a row whose blocker is in Backlog |
| BoardRecovery.TakeLock | src/lock.ts:41-77 | a waiting process gets a lock that no live process holds, stealing a dead holder's file |
| BoardRecovery.UndisturbedClaim | src/compose/kanban-source.ts:137-184 | an idle process nobody disturbs claims exactly the row opClaim settles on, by name or by the queue's order under the leases of the living, and the board and the log say so |
| BoardRecovery.UndisturbedFinish | src/compose/kanban-source.ts:186-241 | a process that has worked on a task and is not disturbed writes the finish: the log is longer by it, the first row with the id has the status and, Blocked without one, the plan path, all else is as it was; if the legend lacks the status or the board the id, nothing is written |
| BoardRecovery.UndisturbedMutation | src/kanban/board.ts:54-69 | any other operation of an undisturbed process is applied to the board it finds, and logged |
| BoardRecovery.LeasedTaskIsRefused | src/compose/kanban-source.ts:152-159 | a process that names a task whose lease a live process holds comes back without it, and board, log and leases are as they were |
| BoardRecovery.NothingToClaim | src/compose/kanban-source.ts:169 | a claim that finds nothing leaves the board and the log alone and gives the board lock back |
| BoardRecovery.WaiterGivesUp | src/lock.ts:41-77 | a process that waits for a lock of a live one may give up, and has then written nothing; one that came to finish still gives its lease back |
| BoardRecovery.AnyoneMayCrash | src/lock.ts:41-77 | a process may die at any point, and all files and everyone else stay as they are: what the safety laws say holds for such runs too |
| BoardRecovery.AbandonedTaskIsResumable | src/compose/kanban-source.ts:131-134 | once no live process holds the board lock or the lease, the queue gives an idle process the first task left In Progress that nobody alive holds, whatever files a crash left |
| BoardRecovery.AbandonedTaskByName | src/compose/kanban-source.ts:152-160 | and any task left In Progress by its name, if its row is the first with it |
| BoardRecovery.FinishedLeaseGoes | src/compose/kanban-source.ts:93-102 | after a finish the lease is gone exactly if the id has no slash |
| Claiming.ClaimedRowExact | src/compose/kanban-source.ts:161-169 | a claim returns an unleased In Progress row if there is one, else an unleased unblocked Backlog row, and nothing exactly when there is neither |
| Claiming.ClaimResumesTheFirst | src/compose/kanban-source.ts:162-164 | the task resumed is the first resumable one in row order |
| Claiming.ClaimStartsTheBest | src/compose/kanban-source.ts:164-168 | no unleased candidate comes strictly before the one a claim starts |
| DrainLoop.TaskBoard.Claim | src/compose/kanban-source.ts:161-183 | the two searches find the claimed row: a resumable one, else a startable one and only if nothing is resumable, else none and only if there is neither; a row from Backlog is marked In Progress |
| DrainLoop.TaskBoard.Finish | src/compose/kanban-source.ts:186-207 | the first row with the id reads Done or Blocked, with the plan path if it is Blocked and had none; every other row is as it was |
| DrainLoop.TaskBoard.ComposeClaimed | src/compose/cli.ts:230-272 | the first row with the id reads Done if the task was ended DONE, now or before, Blocked if it FAILED or has no worktree where one is asked for, and nothing is written if the run raises; a Blocked or an unmerged task counts as a failure |
| DrainLoop.TaskBoard.Round | src/compose/cli.ts:204-272 | one round takes the board from n to n + 1 rounds, or finds nothing to claim and leaves it |
| DrainLoop.TaskBoard.RunBoardTasks | src/compose/cli.ts:198-275 | where the options or the board make it end (`EndsWhateverHappens`), the loop runs exactly to the first moment with a reason to end, leaves the board of that moment, and returns 1 exactly when some handled task ended Blocked, raised or stayed unmerged, else 0; drained means nothing to claim, and with nothing cutting it short it ends drained |
| Answers.RoundHandles | src/compose/cli.ts:230-262 | what a round makes of the board, in its cells and the fields of the answer: its task ends Done, ends Blocked, or is left In Progress by a raise, and one of these it does |
| Answers.ExitCodeMeans | src/compose/cli.ts:255-275 | the exit code of a run of n tasks, in the fields of their answers |
| Drain.OptionsBoundTheRun | src/compose/cli.ts:201-273 | a run has no more rounds than the task limit, one without `--loop`, and with stop-on-fail only the last may fail; only the last may raise or fail to merge |
| Drain.UntakenStays | src/compose/cli.ts:201-273 | a row that no round of a stretch takes is the same before and after |
| Drain.LeasedRowsStay | src/compose/kanban-source.ts:161-169 | rows leased by other live processes are never written |
| StartOrder.RunStartsInOrder | src/kanban/select.ts:18-28 | a row that left Backlog did so in a round that took a row with its id; if the id is its own, or no second row can be taken, that row itself, from Backlog, with all known blockers Done |
| StartOrder.StartsAfterNames | src/kanban/select.ts:18-28 | a row started from Backlog finds the first row of every name written in its Blocked By cell Done |
| StartOrder.RunEvolves | src/compose/cli.ts:201-273 | between any two moments of a run such a row keeps its id and edges, stays if it was not open, and else stays or is Done, Blocked only after a failure, In Progress only after a raise |
| StartOrder.OrderExactly | src/compose/kanban-source.ts:174-180 | whatever the statuses, leases and outcomes, a row leaves Backlog only by being taken, unblocked, exactly if it is not the first with its id or the only one |
| StartOrder.UnblockedExactly | src/kanban/select.ts:18-28 | a row never leaves Backlog while a known blocker is not Done, whatever the statuses, exactly if that is so or it has no known blocker |
| StartOrder.EvolvesExactly | src/compose/kanban-source.ts:193-196 | rounds change a row only towards its end, and only an open one, whatever the statuses, exactly if that is so |
| StartOrder.RunsStartInOrderExactly | src/compose/cli.ts:201-273 | so all rows start in order, whatever the statuses, exactly if every row is the first with its id |
| StartOrder.TwinsStartBlocked | src/compose/kanban-source.ts:161-180 | on a board of three rows the first round finishes a row whose blocker is in Backlog |
| DrainEnds.EndsExactly | src/compose/cli.ts:201-273 | when every task ends DONE and nothing cuts it short, the loop ends exactly if every open row is the first with its id or stuck |
| DrainEnds.EndsWhateverHappens | src/compose/cli.ts:201-273 | the loop ends in every world exactly if a limit or no `--loop` bounds it, or every open row is the first with its id or stuck |
| DrainEnds.FirstRowsSuffice | src/compose/cli.ts:201-273 | it is enough for that that every open row is the first with its id |
| DrainEnds.RunIsBounded | src/compose/cli.ts:201-273 | on such a board a run has no more rounds than there were open rows |
| DrainEnds.StuckRowStays | src/kanban/select.ts:18-28 | a row among rows that hold each other back is never written, in any world |
| DrainEnds.DrainedExactly | src/compose/cli.ts:201-273 | a drained run in which every task ended DONE leaves exactly the stuck rows not Done |
| DrainEnds.AllGoodMeans | src/compose/cli.ts:201-273 | what "every task ends DONE and nothing cuts it short" says of the answers |
| DrainEnds.SecondIsClaimedForEver | src/compose/kanban-source.ts:175-180 | a resumable row that is not the first with its id keeps the board from ever being drained, in any world |
| DrainEnds.DuplicateIdNeverDrains | src/compose/kanban-source.ts:193-196 | a board with a Done and a Backlog row of one id is the same after every number of rounds, each of which takes the second row |
| Stranded.BehindObstacleExactly | src/kanban/select.ts:18-28 | for all statuses and leases on the same ids and blockers, every Backlog row of a drained board has a chain of waiting blockers that ends in a Blocked, custom-status or live-leased row, exactly if the known blockers form no cycle |
| Stranded.CycleStrands | src/kanban/select.ts:18-28 | any cycle, with its rows in Backlog and all others Done, is drained, and none of its rows has such a chain |
| Stranded.RunLeavesChains | src/compose/cli.ts:198-275 | a drained run on a board without a cycle leaves Backlog rows only behind such chains |
| Stranded.AllDone | src/compose/cli.ts:198-275 | if every outcome was DONE and there was no cycle, no Blocked or custom status and no live lease, every task ends Done |
| BoardOps.GeneratedIdIsFresh | src/kanban/ops.ts:49-59 | a generated id is on no row, whatever ids the board has |
| BoardOps.BoardDoc.NextId | src/kanban/ops.ts:49-59 | the loop returns T followed by one more than the largest numeric id |
| BoardOps.FindPlace | src/kanban/ops.ts:233-242 | the scan stops at the first row with a larger numeric id, or at the end |
| BoardOps.BoardDoc.PutRow | src/kanban/ops.ts:224-243 | the row with the id is replaced in place, or a new one is inserted at the sorted place |
| BoardOps.BoardDoc.LinkBlockers | src/kanban/ops.ts:246-276 | each named blocker that is found gets the id on its Blocks cell |
| BoardOps.BoardDoc.Add | src/kanban/ops.ts:171-281 | the new rows, the id and whether it was an update, and exactly when a bad priority or a missing column stops it and what it has written by then |
| BoardOps.BoardDoc.SetStatusOf | src/kanban/ops.ts:283-293 | succeeds exactly for a valid status on a known row, and changes that cell only |
| BoardOps.BoardDoc.Remove | src/kanban/ops.ts:295-302 | removes the first row with the id, and fails exactly when there is none |
| BoardOps.BoardDoc.Clean | src/kanban/ops.ts:304-323 | splicing backwards leaves exactly the rows that are not Done, and reports the ids of the others in board order |
| BoardOps.CleanRemovesDone | src/kanban/ops.ts:310-317 | a row stays exactly when it is not Done, and the counts add up |
| BoardOps.PiecesOfCommaList | src/kanban/ops.ts:266-271 | splitting a written comma list gives its entries back |
| BoardOps.TidyMeans | src/kanban/ops.ts:233-242 | tidy means sorted by numeric id and no id twice |
| BoardOps.TidyRowsAreFirst | src/kanban/board.ts:90-97 | on a tidy board every row is the first with its id |
| BoardOps.OpsKeepTidy | src/kanban/ops.ts:171-323 | any sequence of add, status, remove and clean keeps rows sorted by numeric id and ids unique |
| BoardAdd.AddFrame | src/kanban/ops.ts:224-276 | add leaves every other row as it is, but for the Blocks cell of blockers it names, and keeps their order |
| BoardAdd.AddKeepsStatus | src/kanban/ops.ts:202-205 | an existing row's Status survives add exactly when it is not empty |
| BoardAdd.AddNothing | src/kanban/ops.ts:202-212 | every omitted field comes from the existing row: adding a known id and nothing else leaves a complete board row, and the board, as it is |
| AddCells.AddedCells | src/kanban/ops.ts:202-243 | what add writes, cell by cell: each option before what the row had, and that before the default, no option on Status, a description of more than 128 characters cut; on the first row with the id, or on a new one before the first with a larger number |
| AddCells.ChosenIdMeans | src/kanban/ops.ts:49-59 | a given id with text in it is taken, trimmed; else the id is T and one more than the largest number on the board |
| AddCells.StatusCells | src/kanban/ops.ts:283-293 | setting a status writes that cell of the first row with the id and nothing else |
| AddCells.RemovedCells | src/kanban/ops.ts:295-302 | removing takes out the first row with the id and moves no other |
| AddCells.CleanedInOrder | src/kanban/ops.ts:304-323 | clean keeps the order of the rows that stay and of the ids it reports |
| BoardAdd.LinkedPieces | src/kanban/ops.ts:260-273 | linking keeps a cell's entries in order and adds the pieces of the id after them only if it was not listed |
| BoardAdd.LinkingRepeats | src/kanban/ops.ts:260-273 | linking an id twice is linking it once, on every cell, exactly when the id lists cleanly |
| BoardAdd.AddIsIdempotent | src/kanban/ops.ts:202-281 | add with a fixed id, done twice, is add done once, on every board and with all other options, exactly when the id lists cleanly |
| BoardAdd.LinkedForEver | src/kanban/ops.ts:260-273 | an id that does not list cleanly makes a cell that lacks it longer with every linking |
| BoardAdd.CommaIdExample | src/kanban/ops.ts:260-273 | `a,b` is such an id |
| BoardAdd.AddWithoutCommaRepeats | src/kanban/ops.ts:202-281 | so with an id without a comma the same add again changes nothing |
| BoardAdd.BlockerListsId | src/kanban/ops.ts:245-276 | a found blocker lists the id afterwards, at most once more than before, and keeps its other entries |
| Verdict.ForcedVerdictFails | src/compose/machine.ts:321-332 | a PASS overruled on failing tests is read as FAIL by the next reader |
| Verdict.PassMeans | src/compose/md-state.ts:78-86 | a verdict file reads PASS exactly if its first line that is more than marks and white space begins, after its own marks, with the word PASS in any case |
| Verdict.MarksFail | src/compose/md-state.ts:78-86 | a file of marks and white space only reads FAIL |
| Compose.TurnGoes | src/compose/machine.ts:408-431 | every turn saves where it leads and lowers (rounds left, phase rank) lexicographically; only a CHECK raises the round, by one |
| Rounds.TurnLeads | src/compose/machine.ts:408-431 | where each turn leads: INVESTIGATE to PLAN in plan-then-do and to IMPLEMENT in single mode, PLAN to IMPLEMENT, IMPLEMENT to CHECK, a CHECK that passes to DONE, one that fails to PLAN or IMPLEMENT in the next round, or to FAILED when there is none |
| Rounds.RunInOrder | src/compose/machine.ts:408-431 | a whole run, from any state, goes through the phases in that order up to its end |
| Rounds.FailedCheckGoesRound | src/compose/machine.ts:335 | a CHECK that does not end the run is followed by PLAN, IMPLEMENT and CHECK, in single mode by IMPLEMENT and CHECK, of the next round, as far as the run gets |
| Rounds.FreshRunBegins | src/compose/machine.ts:344-432 | a fresh run begins with INVESTIGATE in round 1 of three, or of as many as asked for, in the mode asked for |
| Rounds.ResumedRunGoesOn | src/compose/machine.ts:347-361 | a run that finds a saved state goes on with it, in the saved mode, whatever its own options say; a state without a mode is one of plan-then-do |
| Rounds.InvestigateTurn | src/compose/machine.ts:198-205 | INVESTIGATE asks nobody, writes the context and goes through |
| Rounds.ImplementTurn | src/compose/machine.ts:273-280 | IMPLEMENT of single mode has one agent, started unless a saved run is in flight, and goes through exactly if it exits 0 |
| Rounds.PlanTurn | src/compose/machine.ts:207-221 | PLAN starts one agent, which sees plan and verdict of the round before, and goes through exactly if it exits 0 and leaves a plan; what it leaves is on disk |
| Rounds.CheckTurn | src/compose/machine.ts:296-320 | CHECK of plan-then-do needs a plan, starts one agent, which finds no verdict, and goes through exactly if it exits 0 and leaves one |
| Rounds.TestTurn | src/compose/machine.ts:282-294 | CHECK of single mode starts nobody and leaves a verdict file exactly if the tests failed |
| Rounds.TurnFails | src/compose/machine.ts:140-143 | a turn that fails names its phase and leaves on disk the state it began with, but for agents in flight |
| Rounds.FailedPhaseIsTriedAgain | src/compose/machine.ts:140-143 | so after a failed phase a new process begins with that phase, in the same round |
| Rounds.FailedCheckLeaves | src/compose/machine.ts:282-336 | after a CHECK that did not pass the verdict on disk reads FAIL; in plan-then-do it is the agent's own text, or that of an overruled PASS with its deciding line replaced |
| Compose.DoneOnlyThroughPassingCheck | src/compose/machine.ts:282-336 | from any fresh or resumed state that is not over, DONE comes only out of a CHECK whose test command exited 0 and, in plan-then-do mode, whose verdict was PASS; FAILED only on the last round; no round exceeds max(starting round, maxRounds) |
| Compose.TurnsAreBounded | src/compose/machine.ts:408-431 | a run takes at most three turns for each round left and those of the current one |
| Compose.SucceedingAgentsFinish | src/compose/machine.ts:408-431 | if agents do not fail the machine ends in DONE or FAILED |
| Compose.SingleModeOutcome | src/compose/machine.ts:282-294 | single mode ends DONE exactly when a round that may be tried passes the tests, in the first such round |
| Compose.BoundaryIsSaved | src/compose/machine.ts:383-389 | at every phase boundary the disk holds the state the machine goes on with |
| Compose.ResumeContinues | src/compose/state.ts:78-105 | cut at any phase boundary and started again with the same options, a run gives the same remaining trace and end, exactly when nothing was saved or maxRounds is positive |
| Compose.ResumeNeedsPositiveMaxRounds | src/compose/state.ts:53-56 | a concrete run with maxRounds 0 that cannot be resumed |
| Checklist.ImplementRunsEachPendingItemOnce | src/compose/machine.ts:222-238 | if agents leave the plan alone, each pending item is started once and in order, no text changes, nothing is unticked, and every item ends checked |
| Checklist.CutAfterItem | src/compose/machine.ts:226-237 | cut after any item, the resumed phase runs exactly the items still pending and ends the same |
| Checklist.InFlightItemIsReattached | src/compose/machine.ts:245-270 | a process that begins an item again finds everything as it was, starts nothing and ends the item alike, exactly if the saved run is still running |
| Checklist.EndedRunStartsAgain | src/compose/machine.ts:247-257 | a run that ended while no process was there is not found: the same item is started a second time |
| Checklist.CrashInsideItem | src/compose/machine.ts:245-270 | a crash inside any pending item, before its run is saved, while it waits, before or after the tick: the phase ends as the uninterrupted one exactly when the item is ticked or its saved run still runs; otherwise that item and no earlier one is started once more |
| Composer.Machine.RunItemAgent | src/compose/machine.ts:245-270 | the reference is on disk before the wait, goes after success, and stays with the saved state on failure |
| Composer.Machine.ImplementItems | src/compose/machine.ts:222-238 | the checklist loop is the function that the item laws are about |
| Composer.Machine.TestGate | src/compose/machine.ts:282-294 | the test gate of single mode, with the verdict file it leaves |
| Composer.Machine.ReviewGate | src/compose/machine.ts:296-336 | the gate of plan-then-do mode, errors for missing files included |
| Composer.Machine.TakeTurn | src/compose/machine.ts:408-431 | one turn of the switch updates state and disk as the turn function says, or reports the phase that failed |
| Composer.Machine.RunToEnd | src/compose/machine.ts:344-432 | the whole process is the run function: same end, same trace, same disk, or the corrupt-file error |
| Feedback.FindEvictionIndex | src/feedback-store.ts:265-320 | the three passes find the one entry that is soonest in the order (settled, notes, rest; oldest; lowest index) among those not protected, or nothing exactly when all are protected |
| Feedback.VictimExactly | src/feedback-store.ts:265-320 | the eviction order in the fields of the entries: the oldest resolved or wontfix one, without one the oldest note, without one the oldest, always among those not protected and the first of equals |
| Feedback.FileSizeAdds | src/feedback-store.ts:362 | the size of the file is the encoded entries and a line break after each |
| Feedback.PruneLogExact | src/feedback-store.ts:328-343 | pruning a log leaves its newest fresh items, no more than allowed and as many as there may be, and touches nothing else of the entry |
| Feedback.FreshExact | src/feedback-store.ts:332 | the fresh items are exactly those within the time limit |
| Feedback.FreshInOrder | src/feedback-store.ts:332 | and they keep their order |
| Feedback.CleanedInOrder | src/feedback-store.ts:349-360 | expiry looks at each entry by itself: one that is resolved or wontfix for longer than allowed goes, the log of any other is pruned, and the order stays |
| Feedback.EvictToFit | src/feedback-store.ts:362-373 | the loop evicts the least number of entries that brings the list within both bounds, or all it may |
| Feedback.PruneEntries | src/feedback-store.ts:345-376 | the same after expiry and log pruning, with input count = kept + evicted |
| Feedback.EvictionIsGreedy | src/feedback-store.ts:265-320 | after any number of evictions survivors keep their order and every victim comes before every evictable survivor |
| Feedback.AddedEntryStays | src/feedback-store.ts:443-447 | a protected first entry survives every eviction and stays first |
| Feedback.Store.Add | src/feedback-store.ts:406-452 | the late size failure is never reached; both bounds hold; the new entry is first; evictions are greedy and least; each early error has its exact condition and leaves the store unchanged |
| Duration.ToDurationText | src/usage/estimate.ts:31-45 | the loop over units prints the text the reading lemmas are about |
| Duration.ParseDuration | src/usage/units.ts:13-20 | blank and ill-formed text give nothing, any other its rounded sum |
| DurationForms.ReadsExactly | src/usage/units.ts:13-20 | a text is read as a number of milliseconds exactly if it is one or more parts (digits, perhaps a point and digits, a unit in either case) with white space anywhere, and the number is the nearest to the sum of what they are worth |
| DurationForms.PrintedForm | src/usage/estimate.ts:31-45 | a duration is printed as days, hours below 24, minutes and seconds below 60, in this order and without those that are none |
| DurationForms.PrintedIsNearest | src/usage/estimate.ts:30-31 | what is printed reads back as the nearest whole number of seconds, halves up, or as one second if that is none |
| Duration.ReadUnitDecimal | src/usage/units.ts:5-18 | a point, digits and a unit after a whole number are read as whole plus fraction, in the unit's milliseconds |
| Duration.FractionIsDecimal | src/usage/units.ts:18 | the digits after a point are worth their number with the point moved before them |
| Duration.PrintedReadsBack | src/usage/estimate.ts:30-45 | reading a printed duration gives 1000 * max(1, round(ms/1000)), for every number |
| Duration.SurvivesExactly | src/usage/estimate.ts:30 | exactly the whole numbers of seconds from one on are read back as they were |
| Duration.EstimateIsNearest | src/usage/estimate.ts:25-28 | an estimate is the whole number of seconds nearest to planned times factor |
| Duration.EstimateSurvives | src/usage/estimate.ts:26-28 | an estimate survives exactly when it is at least a second |
| Duration.FactorIsAMedian | src/usage/estimate.ts:14-23 | the factor is 1 with fewer than three ratios, else the mean of the two middle ones (one and the same for an odd number), clamped |
| Duration.RatiosInOrder | src/usage/estimate.ts:15-18 | the ratios are those of the tasks with both times positive |
| TimeSection.EditReads | src/kanban/plan-time.ts:60-80 | after an edit the section reads the value in its field unless a later line has the last word, and the other field as before |
| PlanTime.SectionRange | src/kanban/plan-time.ts:31-42 | the loops find the first Time heading and the next heading after it |
| PlanTime.Parse | src/kanban/plan-time.ts:44-57 | the loop over the section gives the value of the last line of each field |
| PlanTime.SetField | src/kanban/plan-time.ts:60-80 | the loops edit the first line of the field, or the place after the last text, or add a section |
| PlanTime.NewLineKind | src/kanban/plan-time.ts:23 | a written line is recognised as a line of its field, with the value, and as no heading |
| PlanTime.PlainValueReads | src/kanban/plan-time.ts:25-28 | a value is read back as itself exactly when it is trimmed, without backticks, and neither empty, `-` nor a placeholder |
| PlanLines.HeadingsExactly | src/kanban/plan-time.ts:22-38 | a line is a heading exactly if it is one to six number signs, white space and a text, with white space around, and the Time heading exactly if the text is `time` in any case |
| PlanLines.FieldsExactly | src/kanban/plan-time.ts:23 | a line is a line of a field exactly if it is, after perhaps a bullet, its name in any case, perhaps between stars, a colon and a value on one line; the value is what it says |
| PlanLines.TicksGo | src/kanban/plan-time.ts:26 | backticks are dropped from a value and nothing else |
| PlanLines.TickedReads | src/kanban/plan-time.ts:25-28 | a plain value may stand between backticks |
| PlanTimeEdit.SetThenParse | src/kanban/plan-time.ts:44-80 | in all three cases reading after setting gives the written value, exactly when the field was not repeated or already read that way, and the other field reads as before |
| PlanTimeEdit.TwoLinesDisagree | src/kanban/plan-time.ts:44-80 | a section with two lines of a field: a value set that differs from the second line's is not what is read |
| PlanTimeEdit.SetTwice | src/kanban/plan-time.ts:60-80 | setting the same value again changes nothing, in all three cases |
| PlanTimeEdit.PlainValueComesBack | src/kanban/plan-time.ts:60-80 | a plain value comes back as it is |
| PlanTimeEdit.EstimateComesBack | src/usage/summary.ts:85 | an estimate written into a plan is read back from it, as a duration, as its whole seconds |
| Framing.FeedSplit | src/notify/daemon-sock.ts:89-93 | splitting two pieces one after the other, through the kept tail, is splitting them together |
| Framing.ChunksDoNotMatter | src/notify/daemon-sock.ts:155-160 | any way of cutting a stream into chunks delivers the frames of the whole stream and keeps its tail |
| Framing.EncodedComeBack | src/notify/daemon-sock.ts:84-93 | encoded frames come back unchanged with nothing left over exactly when each is on one line and not blank |
| Framing.LineAdds | src/notify/daemon-sock.ts:89-93 | one more line in a stream is one more frame, unless it is white space only |
| Framing.SentArrive | src/notify/daemon-sock.ts:84-93 | so what is sent arrives, in order, however it is cut |
| Requests.Client.FailEverything | src/notify/daemon-sock.ts:297-304 | every pending request is rejected, in insertion order, and the client is closed |
| Requests.FailAllRejects | src/notify/daemon-sock.ts:297-304 | failing everything adds one rejection for each waiting request, oldest first, and changes nothing else |
| Requests.Client.Send | src/notify/daemon-sock.ts:342-363 | the next id is taken and waits, unless the connection is gone; a failing write rejects it at once |
| Requests.Client.OnData | src/notify/daemon-sock.ts:308-325 | each complete frame that parses resolves the request with its id, if one waits, and nothing else; a `null` frame throws in the middle of the chunk |
| Requests.CrashesExactly | src/notify/daemon-sock.ts:312-323 | a chunk brings the process down exactly if a frame it completes is `null` |
| Requests.NullLineCrashes | src/notify/daemon-sock.ts:312-323 | one line that parses to `null` is enough |
| Requests.Client.OnTimer | src/notify/daemon-sock.ts:348-352 | a timer rejects its own request and takes the connection down |
| Requests.EachSettledOnce | src/notify/daemon-sock.ts:287-366 | after any events, each id issued is settled or waits, never both and never twice; issued = resolved + rejected + waiting; and only a response with its own id resolves a request |
| Requests.ClosingSettlesAll | src/notify/daemon-sock.ts:297-352 | after a close or a timeout nothing waits, everything issued is settled, and nothing is settled or issued any more |
| Requests.ChunksSettleTheSame | src/notify/daemon-sock.ts:306-325 | two chunks settle the same requests in the same order as one chunk with both texts, and leave the same tail unless the first brought the process down |
| EventHub.Hub.TakeSeq | src/notify/hub.ts:32-37 | the number of an event is the run's counter, or one more than the largest in its log |
| EventHub.Hub.Broadcast | src/notify/hub.ts:221-232 | the event is numbered, appended to the log, and written to each connected client of its run |
| EventHub.Hub.Subscribe | src/notify/hub.ts:234-279 | connecting replays the events after the client's last id and registers it |
| EventReplay.EachEventOnceInOrder | src/notify/hub.ts:221-279 | over any interleaving of publish, connect, receive, disconnect and restart, logs stay gapless and only grow, and a client has received the start of its run's log, each event once and in order, and all of it once nothing is in flight |
| EventReplay.NumbersAreNew | src/notify/hub.ts:29-50 | across restarts the next number is larger than every number in the run's log, by exactly one |
| EventReplay.NumbersAheadOfTheLog | src/notify/store.ts:27-29 | a client that claims number n is replayed the events after n, and the next live event is at or below n exactly if n is beyond the log |
| ProcessTree.AcyclicExactly | scripts/resource-guard.py:128-141 | depths that grow from parent to child can be given to a table exactly if no process is its own ancestor |
| ProcessTree.ChildrenMap | scripts/resource-guard.py:128-132 | the pids under each parent, in listing order |
| ProcessTree.Tree | scripts/resource-guard.py:135-141 | on an acyclic table the stack walk gives the preorder of the process's tree |
| ProcessTree.TreeIsDescendants | scripts/resource-guard.py:135-141 | a tree holds exactly the process and its descendants |
| ProcessTree.TreeDistinct | scripts/resource-guard.py:135-141 | no process is in a tree twice |
| ProcessTree.TreeIsListed | scripts/resource-guard.py:230 | filtering a listed process's tree by the table drops nothing |
| ProcessTree.Roots | scripts/resource-guard.py:144-157 | the roots are exactly the targets without a target above them, each once |
| ProcessTree.ExactlyOneTree | scripts/resource-guard.py:144-157 | every target lies in exactly one root's tree |
| ProcessTree.MembersOnce | scripts/resource-guard.py:227-231 | the root trees are pairwise disjoint and duplicate-free |
| ProcessTree.MembersAreTargetTrees | scripts/resource-guard.py:227-231 | together they hold exactly the processes with a target at or above them |
| ProcessTree.SumAdds | scripts/resource-guard.py:231 | a process without a number adds nothing, any other its number |
| ProcessTree.RootStats | scripts/resource-guard.py:227-231 | the per-root sums add up to a sum that counts each of those processes once |
| ProcessTree.Collect | src/process-utils.ts:65-99 | on any parent links, cycles and repeats included, the walk ends and returns exactly the processes the root reaches, once each, root first; nothing exactly when the root is unreadable |
| RoundRobin.StateFile.PickLocal | src/scheduler.ts:53-70 | the next index of the key, and the counter advanced to it, other keys as they were |
| RoundRobin.StateFile.PickBrokered | src/commands/serve.ts:121-136 | the same advance for a positive count, and no change for any other |
| RoundRobin.PickIndex | src/scheduler.ts:61-67 | a key that was never used starts at 0, the next index follows, and 0 follows the last |
| RoundRobin.EveryAgentOnce | src/scheduler.ts:66-69 | any n consecutive picks hit every agent exactly once |
| RoundRobin.TurnsAreFair | src/scheduler.ts:66-69 | after k picks every agent had floor(k/n) or ceil(k/n) turns |
| RoundRobin.KeysDoNotMix | src/scheduler.ts:59-67 | picks under other keys, whatever their pools, leave a key's indices the consecutive ones |
| RoundRobin.Runner.Run | src/runner.ts:617-705 | the attempts are consecutive picks up to the first that does not fail as an agent, or the last allowed; the counter stands at the last; a negative retry count makes no attempt after one pick |
| RoundRobin.RunMeans | src/runner.ts:617-705 | a run with n agents and a number of retries tries consecutive agents, at most n and at most one more than the retries; all but the last failed as agents, and the last did not unless no more were allowed; the run ends as the last did |
| RoundRobin.RunTriesDistinctAgents | src/runner.ts:620-628 | without other pickers the agents tried are pairwise distinct, no more than allowed, and all but the last failed as agents |

## Left out

- DrainLoop.TaskBoard.RunBoardTasks: leases of other processes stay as they are during the loop and are found where they
  were created, board operations and hooks succeed, and the `--task` and `--follow` options are not in it; named claims
  are in `BoardProtocol`.
- Composer.Machine.RunToEnd: prompts, questions answered for an agent, usage metering and task-source hooks are not in
  the machine.
- Verdict.ParseVerdict: upper-casing is that of ASCII letters.
- Duration.ParseDuration: sums are exact rationals, where the program adds doubles.
- Feedback.Store.Add: the optional fields of an entry are one text, text length counts characters rather than UTF-16
  units, and dates are well formed.
- EventHub.Hub.Broadcast: events published with a positive number of the caller's choosing, and clients of the
  aggregated stream of all runs, are not in the hub.
- ProcessTree.Tree: a table with a parent cycle is excluded, since the walk would not end on it.
- RoundRobin.Runner.Run: a fixed, non-empty candidate list; filtering candidates by tier, deactivation and health, the
  single attempt of a named agent, and what is recorded about an agent's health are not in it.
- Compose.CreateState: `--max-rounds` with a text that is no number gives a limit that no round reaches; limits here are
  integers.
- Kanban.PriorityRank: a Priority cell that names a member every JavaScript object inherits, such as `constructor`, makes the
  comparison of priorities undefined; here it is an unknown priority.
- LockNames.DirOf: paths are taken as they are; a slash at the end of an id and dot segments in it are not normalised.
- Kanban.NumericId: ids are exact, where the program loses precision from 2^53 on.
- Reading and writing Markdown: boards are rows of cells and plans are lists of items; rows have a cell for every column.
- Reuse of process ids, lock files that are half written, other hosts, and file-system errors.
- A status map other than the default one, and the messages and warnings of the board operations.
- Runner processes, signals, log pipes, adapters, the namer, health records, run-store pruning, the terminal and web
  interfaces, and the kill policy of the resource guard.
