# Event Management System: a verified model

The Event Management System keeps events, each with a grid of rows x cols seats. CREATE adds an
event, RESERVE marks a list of seats of one event with the next reservation id or fails as a whole,
SHOW prints a grid, LIST prints the ids. Part 1 reads these commands from a job file with many
threads, with WAIT and BARRIER to control them, and writes one output file. Part 2 is a server: a
pool of workers takes clients from a queue and serves each over two pipes, on one shared store.

This project models both parts in Dafny 4.11 and proves what they are meant to guarantee, for any
number of threads, any input and any interleaving. `dafny verify dfyconfig.toml` checks it.

## How it is organised

| files | what they hold |
|---|---|
| `Seating`, `Reservation`, `Store`, `EventLists` | grids and row-major addressing, the two versions of RESERVE running on a seat array, the sequential meaning of the store, the linked list of events |
| `StoreMeaning`, `ServerMeaning`, `JobStoreMeaning` | what a store holds, told from the successful CREATEs and RESERVEs alone, in rows and columns, for both parts |
| `Histories`, `Runs` | calls, effects and returns of any concurrent object; runs, invariants and paths of a state machine |
| `ServerStore`, `ServerHistories`, `ServerTheorems`, `ServerShows`, `ServerTornShow`, `Counting` | Part 2's store under any number of threads, in steps of one lock operation, one list node or one seat: linearizability, what SHOW sees, reservation ids |
| `JobStore`, `JobStoreSteps`, `JobStoreTheorems`, `JobStoreHistories`, `JobStoreIds` | Part 1's store under any number of threads: three reader-writer locks, in-place writes, roll back, buffered output under a file mutex |
| `JobRounds`, `JobRoundTheorems`, `JobWaits` | Part 1's threads: one job cursor under a mutex, waits, barriers, rounds |
| `JobExecutions`, `JobExecutionOutputs`, `JobExecutionTheorems`, `JobTermination` | a whole job: the threads of `JobRounds` running their commands on the store of `JobStore` |
| `ConnectionQueues`, `WorkerPool`, `Shutdown` | the linked queue of connections; workers, condition variable, shutdown |
| `Decimal`, `JobGrammar`, `JobRoundTrip`, `JobLines`, `JobFiles` | numbers and commands as text: the language, writing and reading back, what a line can do to the next, the parser running on a file cursor |
| `Rendering`, `GridTexts` | grids and lists as text: Part 1's flushed buffer, the client's piecewise printing; reading the texts back |
| `Wire`, `Sessions`, `Transfers` | the byte messages, whole client/server sessions over pipes of any capacity, short reads and writes |
| `ServerSessions`, `ServerSessionTheorems`, `ServerSessionShows`, `ServerSessionProgress` | the whole server: any number of the sessions of `Sessions`, served by any number of workers on the store of `ServerStore` |

Code that updates memory in place is a class with methods (`Event`, `EventList`, `Server`,
`ConnectionQueue`, `JobFile`, `Sink`, `Pipe`), each method tied by its postcondition to a function of
the old state. Code that runs on several threads is a state machine whose steps are the points at
which threads can interleave; a theorem about `Run` is about every state of every interleaving.
State components called bookkeeping (histories, logs, counts of what was handed out) are never read
by a step.

Both concurrent stores are compared with one sequential store. For Part 2 that is linearizability of
CREATE, RESERVE and LIST. A RESERVE that finds its event takes effect in its mutex section, one that
does not at its lookup, which is sound because events are never removed. For Part 1 it holds of all four
operations, SHOW included, except that a CREATE may append an id that exists by then
(`JobStoreHistories.OperationsTakeEffectOnce`, `JobStoreIds.StrictIffNoOverlap`).

For the whole server the two halves of Part 2 come together: all clients see one linearizable history, in
which every reply to a CREATE, RESERVE or LIST reports the one effect of its call
(`ClientsShareOneHistory`, `RealTimeOrder`). A SHOW makes no reservation up and misses none that was there
when it began to read (`ShowReplies`): once any client knows that an event was created or seats were
reserved, every later SHOW says so (`CreateThenShow`, `ReserveThenShow`). Every reply fits its message
(`OutcomeAnswers`), and the server goes on until every session is over (`ServerGoesOn`).

The operations are defined by a seat's cell, by what a thread does and by what a message holds. What that
means to a caller is stated apart from these definitions: CREATE, RESERVE, SHOW and LIST event by event, in
rows and columns (`CreateMeans`, `ReserveMeans`, `ListMeans`, `AfterMeans`), a store by the CREATEs and
RESERVEs that succeeded (`HistoryMeans`, `LogMeans`), a reply by the store before and after (`AnswerSays`),
a job by its commands (`FinishedJobIsSequential`), and a printed text by its lines and words (`ShowPrints`,
`ListPrints`).

For a whole job the two halves of Part 1 come together. Every job finishes, under any schedule that goes
on while some thread can step (`EveryJobFinishes`), and a job that has finished did what the commands of
its file do one after the other, each once, in some order in which nothing crosses a barrier; its output
file holds exactly the outputs of its SHOWs and LISTs (`FinishedJobIsSequential`).

## What turned out not to hold

- Part 1 does not keep ids distinct: two overlapping CREATEs of one id can both append
  (`DuplicatesHappen`). Once every CREATE begun has ended or is still looking its id up, ids are distinct
  if and only if no two CREATEs of one id were past their lookups at the same time (`DistinctIffNoOverlap`).
- Part 1 and Part 2 do not agree on a RESERVE that names a seat twice: Part 1 refuses it, Part 2
  grants it (`DoubledSeatDiffers`). `TwoReservesAgree` gives the exact condition, which includes a counter
  wrapped to 0.
- SHOW of the server is not a snapshot: `ShowCanTear` reaches a report of half a reservation. It reports
  exactly the reservations granted if nobody is past the first write of a commit of its event while it
  reads (`ShowExactUnlessCommit`); of a SHOW that runs undisturbed that is an if and only if
  (`AloneExactIff`). `ShowSandwich`, `ShowSeesEarlierReservations` and `ShowReportsReservations` bound what
  it can report otherwise.
- Shutdown can leave workers asleep, because the last broadcast is sent without the queue's mutex
  (`ShutdownCanHang`). It goes through if and only if at the last broadcast no more workers are between the
  termination flag and a connection than connections are queued; else exactly the excess sleeps for good,
  spurious wake-ups apart (`ShutdownIff`, `ShutdownEnds`, `ShutdownProgress`).
- The output buffer of SHOW is not flushed for rows without columns; it is overrun exactly when
  there are no columns and more than BUFSIZ rows (`ShowFitsIff`, `NoColumnsOverrun`).
- A line of a job file can cost lines after it (`ShowEatsNextLine` for one). With no NUL in it, it affects
  only itself if and only if it is not shorter than the keyword its first letter announces, and its arguments
  neither break off at its end where more was expected nor end in a number of 2^32 or more (`AffectsOnlyItselfIff`; `LineLeft` says what is
  left after any line). A coordinate of 2^32 or more does not, as `,` or `)` ended it.
- A RESERVE of 256 seats, the documented limit, is refused (`ReserveRoundTrip`).

Where code and documentation disagree the model follows the code. The README of Part 1 writes a space
after the comma in `(<x1>, <y1>)`, which the parser refuses; it bounds the first coordinate of a seat by
the columns, while the code takes it as the row; it allows a thread id equal to the number of threads in
WAIT, which is refused.

## Model

| member | source | states |
|---|---|---|
| Seating.IndexInRange | Part2/src/server/operations.c:32 | a seat of the grid addresses a cell inside the seat array |
| Seating.IndexInjective | Part1/src/operations.c:49-51 | two seats of a grid share a cell if and only if they are the same seat |
| Seating.IndexOnto | Part1/src/operations.c:49-51 | every cell is some seat's cell |
| Seating.MarkedSnoc | Part2/src/server/operations.c:168-170 | writing one more seat of a request extends the set of marked cells by that seat's cell only |
| Seating.GrantsSeat | Part2/src/server/operations.c:142-164 | validation by bounds and by scanning the grid means that each requested seat exists and is free |
| Seating.FirstHit | Part1/src/operations.c:161-178 | when the in-place scan passes, each cell it wrote was free before the request, also if named twice |
| Seating.TwoReservesAgree | Part1/src/operations.c:156-189 | Part 1 grants a request if and only if Part 2 does and the seats are pairwise distinct (or the id has wrapped to 0) |
| Seating.DoubledSeatDiffers | Part2/src/server/operations.c:142-170 | a request that names one free seat twice is granted by Part 2 and refused by Part 1 |
| Seating.HitsMeans | Part1/src/operations.c:49-51 | a request hits the cell of row r, column c, counted from the first row of seats on, if and only if it names that row and column |
| Seating.GrantsMeans | Part2/src/server/operations.c:142-164 | Part 2 grants a request if and only if every row and column it names exists and `data[(row-1)*cols + column-1]` is 0 |
| Seating.GrantedMeans | Part2/src/server/operations.c:166-170 | a granted request puts the next number at `data[(row-1)*cols + column-1]` of every row and column it names and leaves every other one as it was |
| Seating.InPlaceMeans | Part1/src/operations.c:156-189 | Part 1 grants a request if and only if all rows and columns it names are free and, unless the counter wraps to 0, different; then with the same outcome |
| Reservation.UndoneRestores | Part1/src/operations.c:181-185 | freeing the seats that had passed restores the grid, also for a request that repeats its own seat |
| Reservation.PassedPrefix | Part1/src/operations.c:161-185 | the seats written before the first bad one are a request that would be granted |
| Reservation.Event.constructor | Part1/src/operations.c:106-120 | an event starts with the id, rows and columns asked for, a counter of 0 and rows*cols zeros |
| Reservation.Event.RollBack | Part1/src/operations.c:183-185 | the undo loop leaves the grid exactly as the request found it |
| Reservation.Event.ReserveInPlace | Part1/src/operations.c:156-193 | succeeds if and only if every row and column named is free and, unless the counter wraps to 0, no seat is named twice; then exactly the named rows and columns hold the next number, else nothing has changed |
| Reservation.Event.ReserveValidated | Part2/src/server/operations.c:142-173 | the bounds loop and the nested scan succeed if and only if every row and column named exists and is free; then exactly these hold the next number, else nothing has changed |
| Store.FindIdUnique | Part1/src/eventlist.c:62-76 | a search by id finds the first event with that id and no other |
| Store.FindIdStable | Part2/src/server/eventlist.c:61-76 | appending events never changes what a known id resolves to |
| Store.FoundAtIff | Part1/src/eventlist.c:62-76 | a search by id ends at a position if and only if the event there is the first one with the id |
| Store.Apply | Part2/src/server/operations.c:62-252 | each operation, run alone, keeps the shape of events and the ids and order of those already there |
| Store.CreateMeans | Part2/src/server/operations.c:73-114 | CREATE fails and changes nothing if an event has the id; otherwise it adds one event at the end, with exactly that id, rows and columns, no reservations and rows*cols zeros, and changes no other |
| Store.ReserveMeans | Part2/src/server/operations.c:117-174 | RESERVE succeeds if and only if the first event with the id has every row and column named and each is free; then exactly these hold the new number and no other event changes, otherwise nothing does |
| Store.ListMeans | Part2/src/server/operations.c:213-252 | LIST changes nothing and reports exactly the ids of the events, in order |
| StoreMeaning.MeansAfterCreate | Part2/src/server/operations.c:79-113 | a store that is what its successful CREATEs and RESERVEs say stays so with one more CREATE: the k-th event has id, rows and columns of the k-th CREATE, each row and column the number of the last reservation that named it, or 0 |
| StoreMeaning.MeansAfterReserve | Part2/src/server/operations.c:142-173 | and with one more RESERVE |
| Store.ApplyKeepsIdsDistinct | Part2/src/server/operations.c:73-105 | an operation run alone never stores an id twice |
| EventLists.EventList.constructor | Part2/src/server/eventlist.c:6-17 | a new list is empty |
| EventLists.EventList.Append | Part2/src/server/eventlist.c:19-38 | appends one node at the end; the chain before it, `tail` and `event_num` stay right |
| EventLists.EventList.GetEvent | Part1/src/eventlist.c:62-76 | the walk ends and finds the first event with the id, or none |
| EventLists.EventList.GetEventBetween | Part2/src/server/eventlist.c:61-76 | the bounded walk finds the first match between two nodes, both included |
| EventLists.Server.Lookup | Part2/src/server/operations.c:19-24 | searching from head to tail is searching the whole list |
| EventLists.Server.ReserveAt | Part2/src/server/operations.c:142-173 | a reservation changes its own event and leaves all others untouched |
| EventLists.Server.Create | Part2/src/server/operations.c:62-115 | CREATE on the linked list fails exactly if the id is there; otherwise one event of that id, rows and columns, all zeros, is added at the end and nothing else changes; that is CREATE of the sequential store |
| EventLists.Server.Reserve | Part2/src/server/operations.c:117-174 | RESERVE on the linked list and seat array succeeds exactly if the id resolves and every row and column named is free; then exactly these are taken, in that event only; that is RESERVE of the sequential store |
| EventLists.Server.ListEvents | Part2/src/server/operations.c:213-252 | the walk from head to tail reports all ids in order, none for an empty list |
| Histories.EffectFollowsCall | Part2/src/server/operations.c:62-174 | every effect lies inside the interval of its call |
| Histories.ReturnFollowsEffect | Part2/src/server/operations.c:62-174 | every return reports the result of the one effect before it |
| Histories.WellFormedOrders | Part2/src/server/operations.c:62-252 | from call/effect/return order per thread: each operation that returned has one effect between call and return, and operations that do not overlap take effect in their order |
| ServerStore.LocksKept | Part2/src/server/operations.c:62-301 | every step keeps the lock table right: each thread holds exactly the locks its position says, writers exclude readers |
| ServerStore.HalfNext | Part2/src/server/operations.c:166-170 | writing the next seat of a commit takes a free cell and gives up none |
| ServerStore.RestKeptAppend | Part2/src/server/operations.c:79-113 | an append under the write lock, after a search under the same lock, is a successful CREATE of the sequential store |
| ServerStore.RestKeptUnlock | Part2/src/server/operations.c:142-173 | at the release of the event's mutex the event is what RESERVE of the sequential store makes of it |
| ServerStore.StepKeepsInv | Part2/src/server/operations.c:62-301 | every step of every thread keeps locks, memory, threads and history in agreement |
| ServerStore.RunInv | Part2/src/server/operations.c:62-301 | that agreement holds in every state of every run |
| ServerTheorems.RunLinearizable | Part2/src/server/operations.c:62-252 | every run is equivalent to a sequential run of its effects, with the same results and final store |
| ServerTheorems.FreeEventIsSequential | Part2/src/server/operations.c:137-173 | an event whose mutex is free holds exactly what the effects so far gave it |
| ServerMeaning.EffectMeans | Part2/src/server/operations.c:62-252 | a store that is what the successful CREATEs and RESERVEs so far say stays so with one more effect of any operation |
| ServerMeaning.HistoryMeans | Part2/src/server/operations.c:62-252 | after any legal history the store is what its successful CREATEs and RESERVEs say, in rows and columns |
| ServerMeaning.StoredWasCreated | Part2/src/server/operations.c:79-113 | in every reachable state the k-th event in memory has the id, rows and columns of the k-th successful CREATE |
| ServerMeaning.FreeEventMeans | Part2/src/server/operations.c:137-173 | and, while its mutex is free, each row and column of it the number of the last successful RESERVE that named it, or 0 |
| ServerTheorems.ServerIdsDistinct | Part2/src/server/operations.c:68-113 | no reachable store has two events with one id |
| ServerTheorems.StepGrows | Part2/src/server/operations.c:166-170 | a step only ever takes free seats; a taken one keeps its id |
| ServerTheorems.RunGrows | Part2/src/server/operations.c:73-105 | an id that resolves does so to the same event for ever; LISTs extend one another; taken seats stay taken |
| ServerShows.ShowSandwich | Part2/src/server/operations.c:187-208 | SHOW reads the event its id resolves to, reports every seat taken when it began, with the same id, and only ids still there now |
| ServerShows.ShowSeesEarlierReservations | Part2/src/server/operations.c:198-208 | SHOW reports every reservation that was in effect in the state in which it began reading |
| ServerShows.ShowReportsReservations | Part2/src/server/operations.c:198-208 | everything SHOW reports is a reservation in effect by now or one whose commit is under way |
| ServerShows.SettledIff | Part2/src/server/operations.c:166-172 | a grid shows exactly the reservations in effect if and only if nobody is past the first write of a commit |
| ServerShows.ShowExactUnlessCommit | Part2/src/server/operations.c:187-208 | a SHOW during which nobody is past the first write of a commit reports exactly the reservations in effect |
| ServerShows.AloneExactIff | Part2/src/server/operations.c:187-208 | a SHOW that reads undisturbed reports exactly the reservations in effect if and only if nobody stands past the first write of a commit |
| ServerShows.HalfIsNeither | Part2/src/server/operations.c:166-170 | while a seat of a commit is still to be written the grid is neither that of before nor that of after the reservation |
| ServerTheorems.EventAhead | Part2/src/server/operations.c:166-172 | memory holds every seat the effects so far have given out |
| ServerTheorems.DumpIsSequential | Part2/src/server/operations.c:254-301 | the dump of SIGUSR1, which does take each mutex, prints grids of the sequential store |
| Runs.NoCycle | Part2/src/server/operations.c:68-301 | if whoever a thread waits for ranks higher in the lock order, no threads wait for each other in a circle |
| ServerTheorems.WaitsClimb | Part2/src/server/operations.c:68-301 | whoever a thread waits for stands higher in the order list, event |
| ServerTheorems.NoWaitCycle | Part2/src/server/operations.c:68-301 | no reachable state has a cycle of waiting threads, of any length |
| ServerTheorems.StopsOnlyAtLocks | Part2/src/server/operations.c:62-301 | a thread cannot step if and only if somebody holds the lock it wants |
| ServerTheorems.AlwaysProgress | Part2/src/server/operations.c:62-301 | while an operation is unfinished, some thread with an unfinished operation can step |
| ServerTornShow.ShowCanTear | Part2/src/server/operations.c:189-208 | a run in which SHOW reports the second of two seats reserved together and not the first |
| Counting.Pigeonhole | Part2/src/server/operations.c:166-170 | a grid holding each of 0 to n has more than n cells |
| Counting.GrantedCounted | Part2/src/server/operations.c:166-170 | a granted request of at least one seat takes the next number, leaves the others standing and does not wrap |
| Counting.HistoryCounted | Part2/src/server/operations.c:117-174 | after any legal history the ids in each grid are exactly 1 to its counter |
| Counting.ServerCounts | Part2/src/server/operations.c:137-173 | so they are in memory, in every reachable state, for events whose mutex is free |
| Counting.ServerNeverWraps | Part2/src/server/operations.c:166-170 | at every moment, mid-commit included, the counter is at most rows*cols and no seat holds more than the counter |
| Counting.InPlaceCounted | Part1/src/operations.c:156-189 | a reservation of Part 1 keeps the count, and its seats are distinct |
| JobStore.LocksKept | Part1/src/operations.c:80-318 | every step keeps the three reader-writer locks and the file mutex as each thread's position says |
| JobStore.After | Part1/src/operations.c:80-194 | one effect keeps the shape of events; only a CREATE lengthens the list, only a granted RESERVE changes an event |
| JobStoreMeaning.AfterMeans | Part1/src/operations.c:80-318 | a CREATE adds one event of its id, rows and columns with all zeros, a RESERVE is granted if and only if the rows and columns it names are free and different and takes exactly them, a SHOW reports the grid of the event its id resolves to, a LIST the ids; nothing else changes |
| JobStoreMeaning.LogMeans | Part1/src/operations.c:80-194 | after any log the store is what its successful CREATEs and RESERVEs say, in rows and columns |
| JobStoreMeaning.StoredWasCreated | Part1/src/operations.c:106-132 | in every reachable state the k-th event in memory has the id, rows and columns of the k-th successful CREATE |
| JobStoreMeaning.MemoryMeans | Part1/src/operations.c:156-193 | and, while no reservation is under way, each row and column of it the number of the last granted RESERVE that named it, or 0 |
| JobStoreMeaning.ShowPrints | Part1/src/operations.c:196-262 | what a SHOW has written, read as lines and words, has in row r, column c the number of the last RESERVE before it in the log that was granted that seat, or 0 |
| JobStoreMeaning.ListPrints | Part1/src/operations.c:264-318 | what a LIST has written is one line for each CREATE that succeeded before it in the log, with its id, in order, or the line that says there is none |
| JobStoreSteps.TakeStep | Part1/src/operations.c:162-177 | writing a seat that passed takes the event from j to j + 1 seats written |
| JobStoreSteps.GrantStep | Part1/src/operations.c:161-191 | after the last seat the request is granted, and memory is the granted event |
| JobStoreSteps.RefuseStep | Part1/src/operations.c:165-174 | at the first bad seat the request is one the sequential store refuses |
| JobStoreSteps.UndoStep | Part1/src/operations.c:183-185 | undoing a seat frees exactly its cell |
| JobStoreSteps.UndoneStep | Part1/src/operations.c:181-189 | when the roll back is over the event is as the request found it |
| JobStoreSteps.ShowCellGrows | Part1/src/operations.c:219-235 | a cell read under the seat lock extends written text and buffer to the text of the grid up to there |
| JobStoreSteps.OutputWritten | Part1/src/utils.c:19-32 | a write of any length leaves the file a sequence of whole texts and the written part of one more |
| JobStoreSteps.OutputDone | Part1/src/operations.c:253-261 | the last write completes exactly one more whole text |
| JobStoreSteps.StepKeepsInv | Part1/src/operations.c:80-318 | every step of every thread keeps locks, memory, outputs and log in agreement |
| JobStoreSteps.RunInv | Part1/src/operations.c:80-318 | that agreement holds in every state of every run |
| JobStoreTheorems.RunIsSequential | Part1/src/operations.c:80-318 | each operation finds what it would find alone after the effects before it; memory is the outcome when no reservation is under way |
| JobStoreHistories.OperationsTakeEffectOnce | Part1/src/operations.c:80-318 | each operation takes effect once between its call and its return, the effect is about the id and seats it was called with, and the effects in order are what each finds running alone; only a CREATE does not look for its id again |
| JobStoreTheorems.ShowReadsSnapshot | Part1/src/operations.c:218-251 | while SHOW reads, the grid does not change and holds whole, final reservations only |
| JobStoreTheorems.ShowIsSnapshot | Part1/src/operations.c:196-262 | every grid in the file is the grid after some number of whole operations |
| JobStoreTheorems.OutputsAreWhole | Part1/src/operations.c:236-260 | the file is a sequence of whole outputs, in the order of the file mutex, and the beginning of at most one more |
| JobStoreTheorems.OutputInProgress | Part1/src/operations.c:291-314 | that beginning is a prefix of the text of the output whose thread holds the file mutex, also across several flushes |
| JobStoreIds.LookupIsStable | Part1/src/eventlist.c:62-76 | an id that resolves does so to the same event for ever, duplicates or not; LISTs extend one another |
| JobStoreIds.NoOverlapNoDuplicates | Part1/src/operations.c:89-130 | as long as no two CREATEs of one id were past their lookups together, all ids are distinct and every id about to be appended is new |
| JobStoreIds.OverlapDooms | Part1/src/operations.c:89-130 | once two were, a second event with that id is on its way or there, whatever happens |
| JobStoreIds.DistinctIffNoOverlap | Part1/src/operations.c:80-133 | whenever no CREATE is past its lookup, ids are distinct if and only if no two CREATEs of one id ever overlapped so |
| JobStoreIds.StrictIffNoOverlap | Part1/src/operations.c:80-133 | and exactly then the log is one of a CREATE that refuses every id that is there |
| JobStoreIds.LookUp | Part1/src/operations.c:80-97 | a CREATE of a new id gets past its lookup with no lock held and nothing changed |
| JobStoreIds.AppendIt | Part1/src/operations.c:122-132 | from there it appends whatever has been appended meanwhile |
| JobStoreIds.DuplicatesHappen | Part1/src/operations.c:80-133 | from any reachable state with two idle threads and free locks, any new id can come to be stored twice |
| JobStoreTheorems.JobCounts | Part1/src/operations.c:156-189 | whenever no reservation is under way, the ids in each grid are exactly 1 to its counter, at most rows*cols |
| JobStoreTheorems.WaitsClimb | Part1/src/operations.c:80-318 | whoever a thread waits for stands higher in the order list, event, seats, file |
| JobStoreTheorems.NoWaitCycle | Part1/src/operations.c:80-318 | no reachable state has a cycle of waiting threads |
| JobStoreTheorems.StopsOnlyAtLocks | Part1/src/operations.c:80-318 | a thread cannot step if and only if somebody holds the lock it wants |
| JobStoreTheorems.AlwaysProgress | Part1/src/operations.c:80-318 | while an operation is unfinished, some thread with an unfinished operation can step |
| JobRounds.Injected | Part1/src/threaded.c:28-46 | a wait for all sets every flag and adds to every delay modulo 2^32; a wait for one touches that thread only; an id out of range nothing |
| JobRounds.InjectWait | Part1/src/threaded.c:28-46 | the loop over the two arrays does exactly that, and fails exactly for an id out of range |
| JobRounds.PartitionKept | Part1/src/threaded.c:154-256 | reading one command moves it from the commands ahead to the commands taken |
| JobRounds.ClaimStep | Part1/src/threaded.c:154-256 | taking a command keeps every invariant of the round |
| JobRounds.RoundStep | Part1/src/main.c:67-81 | after a barrier a round starts with the invariants kept, flags and delays cleared, the barrier down, all threads created anew, and every command taken so far finished |
| JobRounds.AllDone | Part1/src/threaded.c:78-95 | when every thread has exited, every command taken is finished |
| JobRounds.RunInv | Part1/src/threaded.c:48-260 | the invariants hold in every state of every run |
| JobRoundTheorems.BarrierSeparates | Part1/src/threaded.c:134-152 | while any thread is about to read a command, all commands up to the last barrier read are finished |
| JobRoundTheorems.NothingCrossesBarrier | Part1/src/threaded.c:238-243 | once a command after a barrier is taken, every command before it is finished, on every thread, and belongs to an earlier round |
| JobRoundTheorems.ClaimingPartitions | Part1/src/threaded.c:133-256 | the commands taken by all threads in all rounds, then those ahead, are the sequential reading of the file |
| JobRoundTheorems.OneRunnerPerCommand | Part1/src/threaded.c:154-256 | no command runs on two threads, and none runs that is finished |
| JobRoundTheorems.NextPays | Part1/src/threaded.c:133-256 | every step of every thread lowers one measure of bytes ahead and progress of the round |
| JobRoundTheorems.RunsEnd | Part1/src/main.c:67-81 | no run is longer than a bound known from the file's size and the number of threads |
| JobRoundTheorems.AlwaysProgress | Part1/src/threaded.c:78-95 | until the job is finished some thread can step |
| JobRoundTheorems.FinishedJob | Part1/src/main.c:65-81 | a finished job ran every command of the file once, in one round more than there are barriers |
| JobWaits.FlagDecides | Part1/src/threaded.c:133-145 | a thread that looks at its flag sleeps if and only if the flag is set and no barrier is open, for the delay it finds then; both are used up |
| JobWaits.SleepsBeforeParse | Part1/src/threaded.c:133-154 | a thread whose flag is set when it goes for its next command sleeps before it reads one |
| JobWaits.NotBeforeNextParse | Part1/src/threaded.c:137-154 | a thread that sleeps or has slept does not look at its flag before its next command; a wait injected meanwhile is not lost |
| JobWaits.HonouredAfterOneCommand | Part1/src/threaded.c:28-46 | so a wait injected into a sleeping thread is slept after exactly one more command |
| JobExecutions.StoreSteps | Part1/src/operations.c:80-318 | a step inside an operation is a step before its one effect, that effect, or a step after it |
| JobExecutions.RunningMayFollow | Part1/src/threaded.c:134-152 | no barrier lies between a command that is running and one taken after it |
| JobExecutions.RunInv | Part1/src/threaded.c:48-260 | rounds and store agree in every state of every job: threads are in the store only for the command they run, and each command taken has its effect in the log once at most |
| JobExecutionOutputs.RunOutputs | Part1/src/operations.c:196-318 | in every state of every job, the commands with an output in the file are those that have left their operation and whose effect was a grid shown or a list; each output is that effect |
| JobExecutionTheorems.BarrierOrdersEffects | Part1/src/threaded.c:238-243 | all effects of commands up to a barrier come before all effects of commands after it |
| JobExecutionTheorems.BarrierOrdersOutputs | Part1/src/threaded.c:238-243 | and so do their outputs in the file |
| JobExecutionTheorems.BarrierCompletes | Part1/src/threaded.c:48-107 | once a command after a barrier is taken, every operation up to the barrier has taken effect and is written |
| JobExecutionTheorems.FinishedJobIsSequential | Part1/src/main.c:65-81 | in a finished job exactly the CREATEs, RESERVEs, SHOWs and LISTs of the file have run, each once, in an order that crosses no barrier, each with an outcome about its own id, size and seats that it finds after those before it; memory is the outcome, and the file holds exactly the outputs of all LISTs and of all SHOWs whose id was there |
| JobExecutionTheorems.FinishedJobMeans | Part1/src/main.c:65-81 | in rows and columns: each event has the id and size of its CREATE, each seat the number of the last granted RESERVE that named it, and the file's texts read back as the grids and lists found |
| JobExecutionTheorems.RequestMeans | Part1/src/threaded.c:154-211 | exactly CREATE, RESERVE, SHOW and LIST use the store; each ends with an outcome of its own kind and about its own id, size and seats |
| JobExecutionTheorems.AlwaysProgress | Part1/src/threaded.c:108-260 | until the job is finished somebody can step, parser mutex, store locks, file mutex and joins taken together |
| JobTermination.OperationPays | Part1/src/operations.c:80-318 | every step of an operation, each cell, undo and partial write included, brings it nearer to its end |
| JobTermination.NextPays | Part1/src/threaded.c:108-260 | every step of a job lowers what is left of its rounds, its operations and its outputs |
| Runs.GetsStuck | Part1/src/threaded.c:108-260 | if every step lowers a budget, every schedule comes to a state in which nobody can step |
| JobTermination.EveryJobFinishes | Part1/src/main.c:65-81 | every job finishes, whatever the file, the number of threads and the schedule |
| ConnectionQueues.ConnectionQueue.constructor | Part2/src/server/queue.c:31 | a new queue is empty |
| ConnectionQueues.ConnectionQueue.EmptyMeansEmpty | Part2/src/server/queue.c:37 | testing `front` alone tells whether anything is queued |
| ConnectionQueues.SetupRoundTrip | Part2/src/server/queue.c:64-65 | a setup message made of two paths of 40 characters is taken for these paths, the request pipe's first |
| ConnectionQueues.ConnectionQueue.Enqueue | Part2/src/server/queue.c:56-84 | appends the two paths of the setup message at the rear |
| ConnectionQueues.ConnectionQueue.Dequeue | Part2/src/server/queue.c:86-95 | removes and returns the front; null exactly when empty |
| ConnectionQueues.ConnectionQueue.FreeQueue | Part2/src/server/queue.c:39-49 | rejects every queued connection once, oldest first, and empties the queue |
| WorkerPool.RunInv | Part2/src/server/sessions.c:142-214 | the invariants of pool and queue hold in every state of every run |
| WorkerPool.ExactlyOnce | Part2/src/server/main.c:101-138 | connections handed out, then rejected, then queued are exactly those enqueued, in order |
| WorkerPool.NoStrandedConnection | Part2/src/server/queue.c:67-81 | unless the main thread holds the mutex, a worker asleep and not signalled means an empty queue |
| WorkerPool.DequeueFindsConnection | Part2/src/server/sessions.c:154-169 | a worker that gets to dequeue finds a connection, spurious wake-ups included |
| WorkerPool.MutualExclusion | Part2/src/server/sessions.c:153-164 | two threads are never inside the queue's mutex together |
| WorkerPool.AtMostOneLate | Part2/src/server/sessions.c:150-164 | after termination is set each worker takes at most one more connection |
| WorkerPool.OnlyThoseOnTheWayMissIt | Part2/src/server/main.c:126-129 | only a worker between reading the flag and going to sleep can miss the last broadcast |
| WorkerPool.ShutdownCanHang | Part2/src/server/main.c:126-133 | a run in which that happens and the main thread waits for a sleeping worker |
| WorkerPool.StaysAsleep | Part2/src/server/main.c:129-133 | nobody else's step ever wakes such a worker or gets the main thread past joining it |
| Shutdown.AwakeKeeps | Part2/src/server/sessions.c:150-169 | after the last broadcast, workers asleep plus workers in excess of the queue stay the same number under every step but a spurious wake-up |
| Shutdown.ShutdownIff | Part2/src/server/main.c:126-133 | shutdown goes through if and only if at the last broadcast no more workers are on their way to a connection than are queued; otherwise exactly the excess is asleep at the end |
| Shutdown.ShutdownEnds | Part2/src/server/main.c:126-133 | every schedule after the broadcast ends within a bound known then, spurious wake-ups apart |
| Shutdown.ShutdownProgress | Part2/src/server/main.c:129-133 | if no more workers are on their way than connections are queued, someone awake can step until the server has shut down |
| Decimal.ValueOfDigits | Part2/src/common/io.c:46-52 | the printed digits stand for the number printed |
| Decimal.UintDigits | Part2/src/common/io.c:43 | an `unsigned int` has between one and ten digits, so both 16-byte buffers suffice |
| Decimal.NoLeadingZero | Part2/src/common/io.c:46-52 | no number but 0 is printed with a leading zero |
| Decimal.UintRoundTrip | Part2/src/common/io.c:8-64 | a printed number followed by any non-digit is read back with its delimiter, if and only if it fits 32 bits |
| Decimal.Sink.PrintUint | Part2/src/common/io.c:42-64 | the digit loop and the write loop put exactly the decimal text into the file, however short the writes |
| Decimal.Sink.PrintStr | Part2/src/common/io.c:66-79 | the whole text arrives, however short the writes |
| JobGrammar.GetNext | Part1/src/parser.c:47-136 | the end is reported exactly at the end of the text; every other answer takes at least one character |
| JobGrammar.CommandShorter | Part1/src/parser.c:47-136 | every command but the end of the file uses up at least one character |
| JobRoundTrip.SeatsRoundTrip | Part1/src/parser.c:180-223 | a list of seats is read back with those already read |
| JobRoundTrip.SeatsTooMany | Part1/src/parser.c:213-216 | with the 256th seat the list is given up and the rest of its line skipped |
| JobRoundTrip.ReserveRoundTrip | Part1/src/parser.c:165-224 | a RESERVE line is read back if and only if it names fewer than 256 seats; otherwise it alone is refused |
| JobRoundTrip.WaitRoundTrip | Part1/src/parser.c:237-263 | WAIT is read back, with and without a thread id |
| JobRoundTrip.CommandRoundTrip | Part2/src/client/parser.c:17-216 | any command of either dialect, written canonically before any text, is read back and nothing else is |
| JobRoundTrip.CreateLineRead | Part1/src/parser.c:138-163 | in the line `CREATE a b c` a is the id, b the rows and c the columns |
| JobRoundTrip.ReserveLineRead | Part1/src/parser.c:165-224 | in the line `RESERVE a [(x,y)]` a is the id, x the row and y the column |
| JobRoundTrip.FileRoundTrip | Part1/src/parser.c:47-263 | a file of canonical commands is read back as the list it was written from, then the end |
| JobRoundTrip.PrintingInjective | Part1/src/parser.c:47-263 | different lists of commands are never one text |
| JobRoundTrip.ShowEatsNextLine | Part1/src/parser.c:226-235 | a SHOW written with a number of 2^32 or more is refused and costs the next line; with a smaller number it is read back |
| JobLines.SeatsLine | Part1/src/parser.c:180-223 | a seat list that breaks off at the end of its line, before a seat and the character after it are complete and before the 256th seat, costs the next line; any other leaves it alone |
| JobLines.ReserveLine | Part1/src/parser.c:165-224 | what the rest of any RESERVE line leaves |
| JobLines.WaitLine | Part1/src/parser.c:237-263 | what the rest of any WAIT line leaves, in both dialects |
| JobLines.LineLeft | Part1/src/parser.c:41-263 | any line of text leaves the lines after it alone, or costs the next one, or the characters its keyword lacks and then one line more |
| JobLines.AffectsOnlyItselfIff | Part1/src/parser.c:41-263 | a line affects only itself if and only if it is not shorter than its keyword and its arguments neither break off at its end nor end in a number too big; every line that does not is refused |
| JobFiles.JobFile.SkipLine | Part1/src/parser.c:41-45 | the cleanup loop skips to just after the next newline |
| JobFiles.JobFile.GetUint | Part1/src/parser.c:10-39 | the digit loop and strtoul read the number, delimiter and rest the language says, inside the 16-byte buffer |
| JobFiles.JobFile.NextKeyword | Part1/src/parser.c:47-136 | the buffered comparison recognises exactly the keywords of the language |
| JobFiles.JobFile.TakeCreate | Part1/src/parser.c:138-163 | parse_create, error paths included |
| JobFiles.JobFile.TakeShow | Part1/src/parser.c:226-235 | parse_show, error paths included |
| JobFiles.JobFile.TakeWait | Part1/src/parser.c:237-263 | parse_wait, with and without a place for the thread id |
| JobFiles.JobFile.TakeSeat | Part1/src/parser.c:182-210 | one turn of the seat loop |
| JobFiles.JobFile.SeatLoop | Part1/src/parser.c:180-211 | the loop fills the coordinate arrays with exactly the seats of the list |
| JobFiles.JobFile.TakeReserve | Part1/src/parser.c:165-224 | parse_reserve, error paths included |
| JobFiles.JobFile.TakeCommand | Part1/src/threaded.c:154-211 | get_next and the matching parse function together read the next command of the language |
| Rendering.PendingBound | Part1/src/operations.c:224-247 | with at least one column the buffer never holds more than BUFSIZ - 20 bytes between cells |
| Rendering.ShowFitsIff | Part1/src/operations.c:215-250 | no write leaves the buffer and no number is cut off, if and only if there is a column or at most BUFSIZ rows |
| Rendering.NoColumnsOverrun | Part1/src/operations.c:215-250 | one row more than BUFSIZ, with no columns, overruns the buffer; BUFSIZ rows do not |
| Rendering.PutCell | Part1/src/operations.c:224-247 | one cell into the buffer, flushed when nearly full, loses no character |
| Rendering.ShowGrid | Part1/src/operations.c:215-260 | the flushed chunks, together, are the row-major text of the grid |
| Rendering.PutLine | Part1/src/operations.c:282-302 | one line of LIST keeps the same bound |
| Rendering.ShowList | Part1/src/operations.c:273-314 | the flushed chunks of LIST are its text, for an empty list too |
| Rendering.ClientShow | Part2/src/client/api.c:191-216 | the client prints the same text from the same grid |
| Rendering.ClientList | Part2/src/client/api.c:253-276 | and the same list |
| GridTexts.GridReadBack | Part1/src/operations.c:215-260 | the text of a grid has one line for each row, each ended by a newline, and word c of line r is the number in row r, column c |
| GridTexts.GridTextInjective | Part1/src/operations.c:215-260 | so different grids are never printed as one text |
| GridTexts.ListReadBack | Part1/src/operations.c:273-314 | the text of a list has one line for each id, naming it, in order, or the one line of an empty list |
| GridTexts.ListTextInjective | Part1/src/operations.c:273-314 | so different lists are never printed as one text |
| Wire.DecEnc | Part2/src/client/api.c:110-114 | an integer of w bytes is read back if it fits |
| Wire.DecAllEncAll | Part2/src/client/api.c:143-147 | an array of integers is read back |
| Wire.RequestRoundTrip | Part2/src/server/sessions.c:45-137 | the server decodes the call the client made |
| Wire.RequestFraming | Part2/src/server/sessions.c:55-136 | reading field by field never asks beyond a request and ends exactly at its last byte |
| Wire.ReplyFraming | Part2/src/client/api.c:174-222 | so does the client with a reply, whose length it learns from its head, missing events and empty lists included |
| Wire.ReplyRoundTrip | Part2/src/server/operations.c:191-252 | the client decodes the reply the server sent |
| Sessions.RunInv | Part2/src/client/api.c:89-285 | the bytes of the call or reply under way are split between writer, pipe and reader, in every state of every session |
| Sessions.SessionAligned | Part2/src/client/api.c:89-285 | between calls both pipes are empty and both sides have decoded exactly what the other sent |
| Sessions.NothingMisread | Part2/src/server/sessions.c:45-137 | at every moment the server has decoded a prefix of the calls, the client a prefix of the replies, at most one behind |
| Sessions.NeverStuck | Part2/src/server/sessions.c:45-137 | whatever the capacity of the pipes, one side can go on until the session is over |
| Sessions.EveryStepAdvances | Part2/src/common/io.c:81-115 | every read and write of any length brings the session nearer to its end |
| ServerSessions.OperationEnds | Part2/src/server/operations.c:62-252 | a CREATE, RESERVE or LIST ends with the result of its effect, a SHOW with a missing event or with a grid of the event its id resolves to |
| ServerSessions.EffectOfCall | Part2/src/server/sessions.c:65-136 | the effect of an operation is that of the call its worker executes, and comes once |
| ServerSessions.RunInv | Part2/src/server/sessions.c:45-210 | clients, pipes, workers and store agree in every state of every run of the server |
| ServerSessionTheorems.AnswerSays | Part2/src/server/sessions.c:70-127 | a CREATE is answered 0 if and only if the store had no event of the id, and then one of that id and size has been added; a RESERVE 0 if and only if its id resolved and every row and column named was free, and then exactly these hold the new number; otherwise the answer is not 0 and nothing has changed; a LIST is answered with exactly the ids and status 0 |
| ServerSessionTheorems.RequestMeans | Part2/src/server/sessions.c:52-136 | each call runs the operation of its kind, with its own id, size and seats |
| ServerSessionTheorems.ClientsShareOneHistory | Part2/src/server/sessions.c:45-137 | every reply to a CREATE, RESERVE or LIST, to any client, says in this sense what the one effect of that call in a single linearizable history found and did; no effect is of a call not made; a client's effects are in the order of its calls |
| ServerSessionTheorems.ClientSettled | Part2/src/client/api.c:89-285 | between two calls of a client exactly its calls so far have had their effects, its pipes are empty and it has decoded every reply sent |
| ServerSessionTheorems.RealTimeOrder | Part2/src/server/sessions.c:45-137 | a call whose reply has been received takes effect before any call decoded later, of any client |
| ServerSessionShows.NextAbove | Part2/src/server/operations.c:176-210 | whatever step is made, a SHOW that is executed or answered goes on to report the event and the seats that were there at any moment since its call was decoded |
| ServerSessionShows.WhenDecoded | Part2/src/server/sessions.c:109-115 | a SHOW is decoded in one step, before its operation is called; in no state before that one has the server seen it, in every state from there on it has |
| ServerSessionShows.ShowReplies | Part2/src/server/operations.c:176-210 | a SHOW whose id was in the store when its call was decoded is answered with status 0 and the event's rows and columns, and every seat taken when its worker began to read is reported with its number; no seat is reported that is not taken by that number; any other answer has no grid and a status that is not 0, and in the state in which the call was decoded there was no event of the id |
| ServerSessionShows.ShowReportsHistory | Part2/src/server/operations.c:187-208 | a SHOW decoded after some state reports every event and seat that any part of the history of that state has left in the store |
| ServerSessionShows.CreateThenShow | Part2/src/server/operations.c:62-210 | once any client has received 0 for CREATE(id, rows, cols), every SHOW of the id decoded later, of any client, is answered with status 0, rows and cols |
| ServerSessionShows.ReserveThenShow | Part2/src/server/operations.c:117-210 | once any client has received 0 for a RESERVE, every SHOW of the id decoded later, of any client, reports each row and column it named with the number of that reservation |
| ServerSessionProgress.OutcomeAnswers | Part2/src/server/operations.c:191-252 | every outcome of an operation is a reply of the kind its call waits for, with rows*cols seats and every number within its field, as long as its bytes can be counted |
| ServerSessionProgress.StoreGoesOn | Part2/src/server/sessions.c:45-137 | while an operation is under way, its worker or one that serves another client can step |
| ServerSessionProgress.ServerGoesOn | Part2/src/server/sessions.c:139-214 | with one worker or more, and clients that end with QUIT and name at most 256 seats at a time, some step other than the beginning of a dump leads on until every session is over |
| Transfers.Pipe.SafeRead | Part2/src/common/io.c:81-97 | delivers the n bytes asked for, or all there are, in order and not one more |
| Transfers.Pipe.SafeWrite | Part2/src/common/io.c:99-115 | all bytes arrive in order, however short the writes |

## Left out

- Opening, creating and unlinking FIFOs and files, directory scanning, processes, signal delivery and
  argument parsing. The limit on processes in Part 1 is not enforced by the code.
- Failures of memory allocation, of lock initialisation and of system calls; `malloc(0)` is taken to
  return a usable address. Short transfers are modelled.
- Durations: a WAIT and the simulated access delay are steps during which other threads may run.
- `ems_terminate`, `free_list` and the destruction of locks.
- Console messages.
- ServerStore.StepKeepsInv: the bounds check of RESERVE is one step, since it reads only fields that
  never change; each look at a cell, each write of a seat and each node of a search is a step.
- JobStore.LocksKept: a lookup under both read locks, and the release of the two, is one step; writers of
  either lock are shut out for its whole length. Each seat written, undone or read is a step.
- JobStoreTheorems.NoWaitCycle: a reader waits for a writer that holds the lock, not for one that wants
  it; lock implementations that prefer waiting writers are not distinguished.
- JobStoreTheorems.OutputsAreWhole: the buffer is a text of any length here; that it never overflows is
  shown of the sequential loops in Rendering.
- ServerSessionShows.ReserveThenShow: a reservation whose number the counter has wrapped to 0 cannot be told
  from free seats, so nothing is said of its numbers.
- Counting.ServerCounts: of requests that name a seat and grids of fewer than 2^32 seats, as for JobCounts; a
  request of no seats, which no client sends, would raise the counter and mark nothing.
- JobFiles.JobFile.TakeCommand: texts that do not end in a newline and runs of 16 or more digits are
  excluded, because the parser's buffer is then read without an end mark or overrun.
- JobExecutionTheorems.FinishedJobIsSequential: the standing exception of CREATE applies, whose exact
  condition is `JobStoreIds.DistinctIffNoOverlap`.
- WorkerPool.ExactlyOnce: what happens between a worker and its client is the subject of Sessions and
  ServerSessions, where a free worker takes any client not taken before.
- ServerSessions.RunInv: a worker writes its reply after the operation. The source writes the ids of a LIST
  while it holds the read lock of the list and the grid of a SHOW while it reads, so a client that does not
  read can hold up CREATEs. Replies that no memory could hold (2^62 cells or ids) are never sent.
- ServerSessionProgress.ServerGoesOn: a client that does not QUIT keeps its worker for good, and a RESERVE that
  announces more than 256 seats has the server read behind its arrays; both are excluded there.
- Sessions.NeverStuck: sessions cut short by either side, and the setup message, are not modelled; a
  request with more than 256 seats is transported but not executed.
- JobLines.AffectsOnlyItselfIff: lines with a NUL, which the parser takes for the end of the file inside a
  line, are covered by `LineLeft` only, which then says that reading goes on behind a NUL of the line.
- Shutdown.ShutdownIff: a worker woken by nobody's signal rescues itself; such wake-ups are excluded there.
- Fairness: progress theorems say that some thread can step, not that a given one eventually does.
