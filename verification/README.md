# Factory lines, supervisor and sales: a Dafny model

The system is a small manufacturing simulation made of three C programs.

- The **sales** orchestrator (`sales.c`) checks its command line `n size`. It puts an order of `size` parts into a shared-memory record. It creates a message queue and four named semaphores. It then starts `n` factory processes, each with a random capacity (10..50) and duration (500..1200 ms), and one supervisor process. Every number is passed as a decimal string printed into a small fixed buffer.
- Each **factory** (`factory.c`) parses its arguments. It then loops: under the shared-memory mutex it claims a batch of up to `capacity` parts from `remain`. It reports each non-empty batch to the supervisor as a Production message. When a claim comes back empty it stops and sends one Completion message.
- The **supervisor** (`supervisor.c`) receives messages until it has seen `numlines` Completions. It keeps per-line totals and iteration counts and a grand total. Once the orchestrator allows it, it prints a report with one row per line and the grand total next to the order size read from shared memory.

The model is split into six modules, one file each:

| file | module | what it holds |
|---|---|---|
| `messages.dfy` | `Messages` | the two message kinds, per-line projections of a queue, and counts of parts, Productions and Completions |
| `factory.dfy` | `Factory` | the batch claim, one pass of a factory's loop, the plant of all lines sharing `remain`, runs under any schedule, and termination |
| `supervisor.dfy` | `Supervisor` | the tally, one receive, the receive loop and its outcomes, and the final report |
| `decimal.dfy` | `Decimal` | `%d` printing, `snprintf` truncation into a buffer, `strtol` parsing, and the narrowing of its `long` result to an `int` |
| `sales.dfy` | `Sales` | command-line checks, the shared record, the random settings, and the factory and supervisor arguments |
| `protocol.dfy` | `Protocol` | the whole run: start-up, any schedule, any interleaving of the messages, and the report |

Concurrency is modelled this way:

- A *schedule* is a sequence of line positions. Each position takes one pass of that factory's loop. The claim under the mutex is one atomic step.
- The message queue the supervisor reads is any *interleaving* of the lines' messages. Every message comes from a line 1..n, and each line's messages keep the order that line sent them (`Protocol.Interleaves`).
- The random generator is a parameter `random: nat -> nat`. Factory `i` uses draws `2(i-1)` and `2(i-1)+1`, the order in which the launch loop calls `random()`.

The central result is `Protocol.OrderFilledExactly`. Take any valid command line, any random draws, any schedule followed by a sweep that lets each line finish, and any interleaving of the messages. Then every factory stops and the supervisor exits exactly after the last message. Its report lists lines 1..n in order, each with the parts and iterations that line counted itself, and the grand total equals the order size.

## Model

| member | source | states |
|---|---|---|
| Factory.ClaimBatch | factory.c:45-55 | the batch plus what is left equals the old inventory; with stock left the batch is the smaller of capacity and stock; an exhausted or negative inventory gives a batch of 0 and is left unchanged; with positive capacity the batch is 0 exactly when nothing is left |
| Factory.Launch | factory.c:28-37 | a line starts running with its launch parameters, no parts, no iterations and no messages, and satisfies the line invariant |
| Factory.Cycle | factory.c:44-86 | one pass appends exactly one message; the loop ends exactly when the claim is empty, and then the message is the line's Completion; otherwise it is a Production of the claimed batch with the line's id and duration |
| Factory.CycleKeepsLineInv | factory.c:58-86 | a pass keeps the line's parts and iterations equal to the sum and the count of its Production messages, and keeps its messages as positive Productions followed, once stopped, by one Completion |
| Factory.FirstClaimEmpty | factory.c:48-59 | a factory whose first claim finds no stock sends only its Completion and made nothing |
| Factory.Tick | factory.c:47-56 | a turn changes only the line whose turn it is, never a stopped line, and never any line's launch parameters |
| Factory.Run | factory.c:44-80 | any schedule keeps every line's launch parameters and leaves stopped lines as they were |
| Factory.TickKeepsInv | factory.c:47-77 | a turn keeps the plant invariant: stock is non-negative, stock plus parts made equals the order, every line keeps its invariant, and a stopped line implies no stock; stock never rises |
| Factory.RunKeepsInv | factory.c:44-80 | any schedule keeps the plant invariant and never raises the stock |
| Factory.FreshPlantInv | sales.c:73-75 | the plant as the orchestrator sets it up, with the whole order in stock and every line just launched, satisfies the plant invariant |
| Factory.EffectiveTurnsBounded | factory.c:44-80 | under any schedule, the turns that find a running line number at most the initial stock plus the number of running lines, so the lines' loops end |
| Factory.SoloRunStops | factory.c:44-59 | a line given more turns in a row than there are parts left stops |
| Factory.SweepStops | factory.c:44-59 | a sweep giving each line in turn more turns than there are parts left stops every line |
| Factory.EveryScheduleCanFinish | factory.c:44-86 | after any schedule and then the sweep, all lines have stopped, the stock is exactly 0 and the lines made exactly the order |
| Factory.StoppedPlantFilledOrder | factory.c:48-86 | once every line has stopped the stock is 0, the parts made add up to the order, and each line's messages are its Productions followed by its one Completion |
| Factory.EmptyOrderOnlyCompletes | factory.c:48-59 | with an order of 0, every line's messages are either none or just its Completion |
| Messages.StreamHasSoleCompletion | factory.c:69-86 | a stopped line's messages hold exactly one Completion, which is the last message, and one Production per other message |
| Messages.ProjectConcat | factory.c:72-86 | a line's messages in two joined queues are its messages in each part, in order |
| Messages.CompletionsPartition | supervisor.c:51-58 | when every message comes from a line 1..n, the queue's Completions are the sum of each line's Completions |
| Messages.OneCompletionPerLine | supervisor.c:51-58 | if each line's messages end with its only Completion, the lines 1..n account for exactly n Completions |
| Supervisor.Init | supervisor.c:23-33 | the tally starts with arrays of n+1 slots, all zero, a zero grand total and no finished line |
| Supervisor.Receive | supervisor.c:57-73 | a Completion adds one finished line and changes nothing else; a Production adds its batch to its line's total and to the grand total and one iteration to its line, and leaves every other slot unchanged |
| Supervisor.TalliedAccounts | supervisor.c:51-75 | after any prefix of the queue, each line's slot holds the parts and the number of that line's own Productions; the grand total is the sum of all batches and of the slots; the iteration slots add up to the number of Productions; the finished count is the number of Completions |
| Supervisor.GrandTotalIsLineTotals | supervisor.c:69-98 | when every message comes from a line 1..n, the grand total equals the sum of the totals of the lines the report prints, and so do the iterations |
| Supervisor.Supervise | supervisor.c:51-75 | the receive loop takes messages until, and only until, it has seen n Completions; it stops early only on a queue that runs dry or a Production naming a line outside the arrays, and its tally is that of the messages taken |
| Supervisor.LastCompletionEndsQueue | supervisor.c:51-58 | when each line's messages end with its only Completion, the count reaches n exactly at the last message of the queue |
| Supervisor.EveryProductionCounted | supervisor.c:51-75 | under any interleaving of such streams the loop consumes the whole queue, counts every Production, and finds all n lines finished |
| Supervisor.FinalReport | supervisor.c:82-99 | the report has n rows with strictly increasing ids in 1..n; each row carries that line's total and iterations; the grand total and the requested size are printed as given |
| Decimal.Format | sales.c:95-97 | `snprintf` into a buffer of `size` bytes keeps a prefix of the printed text: all of it exactly when it is shorter than `size`, otherwise exactly its first `size - 1` characters |
| Decimal.FormatFits | sales.c:93-97 | a non-negative value is written whole exactly when it is below 10^(size-1) |
| Decimal.SkipsLeadingSpace | factory.c:14-16 | `strtol` drops exactly the white space in front of the number: what is left is a suffix of the text that is empty or starts with something other than white space |
| Decimal.Printed | sales.c:95-97 | `%d` text is a minus sign exactly for a negative value followed by digits only, and for a non-negative value its decimal digits with no leading zero |
| Decimal.StrtolNoDigits | factory.c:14-16 | `strtol` on a text holding no digit returns 0 |
| Decimal.ToInt | sales.c:50-51 | storing a `long` in an `int` yields a value in the `int` range that agrees with the original modulo 2^32, and keeps a value that already fits |
| Decimal.ReadInt | factory.c:14-16 | `int x = strtol(s, NULL, 10)` yields a value in the `int` range, and the number read whenever that fits |
| Decimal.ReadIntPrinted | factory.c:14-16 | every `int` printed with `%d` is read back into an `int` as itself |
| Decimal.WideNumberWraps | sales.c:50-51 | a number from IntMax+1 to IntMax+2^32 read into an `int` becomes itself minus 2^32 (3000000000 becomes -1294967296) |
| Decimal.ParsePrinted | factory.c:14-16 | reading back with `strtol` what `%d` printed gives the printed value, for negative values too |
| Decimal.BufferRoundTrip | sales.c:93-97 | a value that fits its buffer reads back exactly as the value printed, and so does its `int` reading when the value is at most IntMax |
| Sales.CapacityOf | sales.c:96 | a capacity is between 10 and 50 |
| Sales.DurationOf | sales.c:97 | a duration is between 500 and 1200 |
| Sales.Settings | sales.c:91-97 | the launch loop creates max(n, 0) factories; the one made in pass k has id k+1, so ids are 1..n in increasing order; capacities and durations are in range and come from draws 2k and 2k+1 |
| Sales.EachIdOnce | sales.c:91-95 | every id 1..n is given to exactly one factory |
| Sales.Start | sales.c:45-85 | start-up is refused exactly when there are fewer than two arguments or when the number of factories, once read into an `int`, exceeds 40, with the matching reason; otherwise the resources are created in order, the shared record holds the whole order with nothing made, and every factory and the supervisor get their numbers printed into their buffers |
| Sales.ArgumentsReadBack | sales.c:93-125 | with at most 40 factories no argument is cut by its buffer: each factory reads back its id, capacity and duration, and the supervisor reads back n |
| Sales.ArgsOf | sales.c:93-97 | an id or capacity below 100 and a duration below 10000 read back from their buffers as themselves |
| Sales.LongIdCut | sales.c:93-95 | the id buffer holds only two digits: every id from 100 to 999 loses its last digit and is read back as a tenth of itself |
| Sales.WideArgumentsWrap | sales.c:50-56 | numbers past the `int` range are narrowed before the check: 4294967297 factories start as one, and an order of 3000000000 is recorded as -1294967296 |
| Protocol.BootedLines | factory.c:14-37 | factories started from arguments that read back as their settings run with those settings, and together form a plant that satisfies the plant invariant |
| Protocol.OpeningIsSound | sales.c:42-111 | for a valid command line the factories start with exactly the id, capacity and duration chosen for them, with ids 1..n in launch order; the stock is the whole order; the plant invariant holds; the supervisor is told n; the shared record holds the order size |
| Protocol.NoFactoriesMakeNothing | sales.c:87-128 | asking for 0 factories starts none; the supervisor, told 0, takes no message and reports no row and a grand total of 0 against the order size |
| Protocol.ConcatInterleaves | factory.c:72-86 | the lines' messages taken one line after another form an interleaving |
| Protocol.SomeInterleavingExists | factory.c:69-86 | for every valid run some queue interleaves the stopped factories' messages, so the hypothesis of the end-to-end lemma can always be met |
| Protocol.EveryFactoryStops | factory.c:44-86 | for a valid command line, after any schedule and the sweep, every factory has stopped with its id 1..n in order, and the plant invariant holds |
| Protocol.StoppedStreams | factory.c:82-86 | in any interleaving of stopped lines' messages, each line's own messages end with its only Completion |
| Protocol.StoppedLinesReportOrder | supervisor.c:51-75 | over any interleaving of stopped lines' messages the supervisor takes the whole queue, finds every line finished, credits each line with exactly its own parts and iterations, and totals the order |
| Protocol.StoppedLinesFinalReport | supervisor.c:82-99 | the final report over stopped lines has row k for line k+1 with that line's parts and iterations, and a grand total equal to the order |
| Protocol.OrderFilledExactly | sales.c:91-136 | end to end: for every valid command line, random draws, schedule and interleaving, every factory stops, the supervisor is told n and exits after the last message, and its report lists each factory in id order with its own parts, and a grand total equal to the order size |
| Protocol.RowIds | supervisor.c:88-93 | n rows with strictly increasing ids in 1..n are exactly the rows 1..n, in order |
| Protocol.SumIsMade | supervisor.c:69-72 | the per-line totals add up to the parts the lines made |

## Left out

- Processes, `fork`/`execlp`, `waitpid`, output redirection, `printf`, `Usleep` and the log files are not modelled. A factory's duration is kept only as a value carried in its messages.
- The message queue, shared memory and semaphores are not modelled as operating-system objects. `Sales.Start` lists them in creation order. The shared-memory mutex is modelled by making a claim one atomic step. The two barriers between orchestrator and supervisor only order the report after the receive loop, which the model does by construction.
- Signal handling and `cleanup` in sales.c are not modelled.
- A failed `msgsnd` in a factory loses that message, and a failed `msgrcv` in the supervisor reprocesses the previous buffer. Both are left out: every send and every receive succeeds.
- A supervisor whose queue runs dry blocks for ever in the source. The model ends the loop with the `Starved` outcome instead. A Production naming a line outside the arrays is undefined behaviour in the source and ends the loop with the `Fault` outcome.
- The supervisor's own check that it got an argument (supervisor.c:15-18) is left out. The orchestrator always passes exactly one.
- `Supervisor.Supervise` takes `numlines` as a natural number. A command line with a negative `n` starts no factory, but the supervisor's array allocation for a negative count is not modelled.
- Decimal.Strtol: skips white space, reads an optional sign and the digits that follow. It does not saturate at the bounds of a 64-bit `long` as C's `strtol` does: a number beyond ±2^63 reads as its exact value, and `Decimal.ReadInt` narrows that value. The `int` narrowing of numbers within the `long` range is modelled.
- C `int` wrap-around in the counters is not modelled. The order is read into an `int`, so it is at most IntMax. The counters stay between 0 and the order size and never overflow, and the end-to-end lemmas require a non-negative order.
- The `capacity` field of a message and the stale `partsMade` a Completion carries are never read by the supervisor, so messages do not hold them.
- The `made` field of the shared record is set to 0 and never updated by any program. The model keeps it as 0.
- message.h, shmem.h and wrappers.h are not part of this model. Their constants appear only through the behaviour above.
- Factory.EveryScheduleCanFinish: states that every schedule can be completed by a sweep, not that every fair scheduler ends the run. Unfair schedules that starve a line are left out.
- Protocol.OrderFilledExactly: requires at least one factory and a non-negative order. A negative order makes every line stop at once with nothing made, which `Factory.ClaimBatch` states, but the end-to-end report is stated only for non-negative orders.
