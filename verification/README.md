# Models of the operating-systems exercises

This project models the concurrent programs of the exercises and two sequential ones, and proves what they
promise: for every number of threads, every size, every input and every interleaving.

`dafny verify dfyconfig.toml` checks everything.

| files | program |
|---|---|
| `FlowerField`, `Beehive`, `BeehiveInvariant`, `BeehiveResults`, `BeehiveTermination`, `BeehiveStranding`, `BeehiveBear`, `BeeWork`, `BeehiveProgram` | the beehive simulation (exercise 11) |
| `WorkerPool`, `WorkerPoolInvariant`, `WorkerPoolResults`, `WorkerPoolEndings`, `PoolProgram` | one producer and a pool of workers that share a queue and stop at poison pills |
| `SumConsumers`, `SumProgram` | that pool as the summing consumers of exercise 6, with a condition variable and polling |
| `HandlerPool`, `HandlerResults`, `ServerProgram` | that pool as the request handlers of the web server (exercise 8) |
| `DiceGame`, `DiceInvariant`, `DiceResults`, `DiceDrives`, `DiceEndings`, `DiceOutcomes`, `DiceHistory`, `DiceProgram` | the dice game with four barriers per round (exercise 10) |
| `RingBuffer` | the circular buffer with two semaphores (exercise 5) |
| `Philosophers` | the dining philosophers (exercise 7) |
| `MyQueue` | the linked FIFO queue that several exercises share |
| `MemoryTracker` | the allocation tracker (exercise 1) |
| `Plugins`, `Substitution` | the string plugins and the program that chains them (exercise 10) |
| `Sums`, `Runs`, `Arithmetic` | sums over sequences, runs of a step function, quotients and remainders |

## How the concurrent programs are modelled

A program is a step function from a state and an action to the next state, or `None` when the thread that the
action belongs to is blocked. One step is one lock, unlock, semaphore, condition-variable, barrier or atomic
operation, one queue operation, or one access to shared data that a lock or a phase protects. A schedule is any
sequence of actions (`Runs.Exec`), so a statement about all reachable states is one about all interleavings.
What the C library or chance decides is part of the action: which thread a barrier declares serial, whom a
signal wakes, when a thread wakes spuriously, what a player rolls, whether a bear wins.

Each of these programs also exists in place, on arrays, objects and the linked queue (`Colony`, `Pool`,
`Program`, `Server`, `Game`, `SharedMemory`, `Table`). Their methods are proved to take exactly the steps of the
step function. For each program a method gives every action of a given schedule its turn, in which a blocked
thread does nothing; it is proved to return what the step function leads to (`Runs.Driven`), and the promised
result when the program has finished there. Every run is driven by some schedule (`Runs.RunIsDriven`).

## Assumptions

- The queue operations of the beehive are atomic. The program does not ensure this: bees push under
  `field_mutex` but test and pop under `queue_mutex`. The polling consumers' first look at the queue, which takes
  no lock, is assumed to be atomic too.
- There is at least one bee, consumer, handler and player, and the field has between 1 and `INT_MAX` flowers,
  because queue entries are `int`.
- All threads exist from the start. A thread that is created later is one that has not been scheduled yet.
- `malloc` returns no address that is still in use, and creating and joining threads succeeds.
- The shared memory for L entries can be mapped: its size fits its type, so L is less than 2^60. It is new, and a
  semaphore that `sem_init` refuses to initialise has the value 0 of the zeros in it. `SEM_VALUE_MAX` is 2^31 - 1.
- K is less than 2^64 - 1, where the loops of the circular buffer would not end.

## Where code and documentation disagree

The model follows the code.

- XOR with 0x20 turns a space into the terminator, so the "Hello World" example of exercise 10 comes out as
  "BYYRu" (`Plugins.HelloWorldIsLost`). A chain is reversible exactly when no XOR meets a space
  (`Plugins.ChainIsReversible`).
- The comment on the substitution table promises the original after 26 applications; the least such number is 42,
  and the numbers that restore every text are exactly its multiples (`Substitution.RestoresExactly`).
- All players with the highest roll are to be eliminated. They read `n` while others decrement it, so some may
  stay: between min(m, n-m) and m of the m holders leave, and each number in that interval occurs, already in
  the first round of games of every size (`DiceOutcomes.EveryFirstRoundHappens`). All of them leave under every
  schedule if and only if 2m <= n (`DiceOutcomes.AllHoldersLeaveExactly`). There is still exactly one winner.
- The simulation is to end once all nectar is collected. Main stores `must_terminate` at any time. If it does so
  while one bee is at the loop test, or gone, and another is between that test and the end of the first barrier,
  the bees never meet again and the program cannot end; if it does so at any other time, no bee ever gets stuck
  and the program can end (`BeehiveTermination.CanEndExactly`, `StoreDecides`). A bear always strikes while the bees are together. The
  bad case is reachable (`BeehiveStranding.StrandingIsReachable`); all flowers are collected then.
- The circular buffer is to work for every length. `sem_init` takes the length as an `unsigned int`, so both
  children block at once if and only if it grants no slot: when L is a multiple of 2^32, or exceeds
  `SEM_VALUE_MAX` modulo 2^32 (`RingBuffer.StuckExactly`).
- `NULL_FREE` is 0 and sets no bit in the error byte, so freeing NULL leaves no trace
  (`MemoryTracker.NullFreeGoesUnnoticed`); `FAILED_ALLOC` is 3, which the byte also reads exactly after a double
  free and a full table (`FailedAllocIsAmbiguous`).

## Model

| member | source | states |
|---|---|---|
| `FlowerField.CalculatePositions` | exercise11/task3/beehive.c:59-74 | fills the output array with the flowers at (x, y-1), (x, y+1), (x-1, y) and (x+1, y), in this order, for a position in column x and row y; outside the field an entry is the error value |
| `FlowerField.EntriesInCoordinates` | exercise11/task3/beehive.c:59-74 | the list of neighbours in coordinates: above, below, left and right of column pos mod W and row pos div W, or the error value where the field ends |
| `FlowerField.FlowerIsThere` | exercise11/task3/beehive.c:59-68 | the flower at (x, y) has column x and row y and lies in the field |
| `FlowerField.PositionsAreTheNeighbours` | exercise11/task3/beehive.c:63-68 | the entries that are not the error value are the in-grid flowers whose coordinates (pos mod W, pos div W) differ by one step, all of them and nothing else |
| `FlowerField.PositionsAreMutual` | exercise11/task3/beehive.c:63-73 | if q is entry i of p, then q is inside the field and p is the opposite entry of q |
| `FlowerField.PositionsAreDistinct` | exercise11/task3/beehive.c:63-73 | no neighbour is listed twice |
| `FlowerField.AdjacentSymmetric` | exercise11/task3/beehive.c:59-74 | being a neighbour is symmetric |
| `FlowerField.NoFrontierMeansAll` | exercise11/task3/beehive.c:76-90 | the grid is connected: a non-empty set of harvested flowers without a neighbour that has nectar is the whole field |
| `FlowerField.EdgesOfTheGrid` | exercise11/task3/beehive.c:63-68 | the right and bottom neighbours number W(H-1) + H(W-1) in all |
| `FlowerField.HarvestTouches` | exercise11/task3/beehive.c:82-88 | harvesting a flower touches for the first time exactly the edges to its neighbours with nectar, which are the ones it reports |
| `BeehiveInvariant.StepKeepsInv` | exercise11/task3/beehive.c:133-168 | every operation of every thread keeps mutual exclusion, the frontier, the counts, the half of the round and the meaning of the flags |
| `BeehiveInvariant.FrontierKept` | exercise11/task3/beehive.c:150-158 | every operation keeps each flower with nectar next to a harvested one queued, carried by a bee, or about to be reported |
| `BeehiveInvariant.LocalFrontier` | exercise11/task3/beehive.c:76-90 | the frontier grows only around the flower just harvested, and the bee that harvested it is then going to report it |
| `BeehiveInvariant.NothingLeft` | exercise11/task3/beehive.c:133-143 | an empty queue and no bee under way or reporting mean that no nectar is left |
| `BeehiveInvariant.FullCount` | exercise11/task3/beehive.c:239-241 | the counter reaches the number of flowers only when no nectar is left |
| `BeehiveInvariant.ReachableInv` | exercise11/task3/beehive.c:126-247 | the invariant holds in every state of every interleaving |
| `BeehiveResults.NoFlowerForgotten` | exercise11/task3/beehive.c:76-90 | in every reachable state, a flower with nectar that is next to a harvested one, or is the start, is queued, carried by a bee, or about to be reported by the bee that harvested its neighbour |
| `BeehiveResults.StartsInTheMiddle` | exercise11/task3/beehive.c:212-216 | the first and only entry of the queue is W*H/2, which lies in the field |
| `BeehiveResults.OneBeeAtATime` | exercise11/task3/beehive.c:135-159 | no two bees are under the queue mutex at a time, and no two under the field mutex |
| `BeehiveResults.QueueTurn` | exercise11/task3/beehive.c:76-143 | an operation leaves the queue alone, or takes its first entry into the hand of the bee that pops, or puts a neighbour with nectar behind all others |
| `BeehiveResults.HarvestTurn` | exercise11/task3/beehive.c:150-152 | nectar goes only from the flower that a bee has fetched, and only if it was there |
| `BeehiveResults.QuietMeansDone` | exercise11/task3/beehive.c:133-160 | an empty queue with no bee under way implies that all W*H flowers are harvested and counted |
| `BeehiveResults.CounterIsExact` | exercise11/task3/beehive.c:151-152 | the counter is the number of harvested flowers less the bees that are just about to count; it never exceeds W*H, and equals it only after a full harvest |
| `BeehiveResults.ExactWork` | exercise11/task3/beehive.c:82-88 | there are at most 1 + W(H-1) + H(W-1) pushes, exactly that many after a full harvest, and never more pops than pushes |
| `BeehiveResults.RoundBound` | exercise11/task3/beehive.c:133-168 | after 1 + W(H-1) + H(W-1) rounds or more, the whole field is harvested |
| `BeehiveResults.ProgressMade` | exercise11/task3/beehive.c:133-168 | every operation of a bee brings the end of its round closer by at least one, for all bees together |
| `BeehiveResults.EnoughOperationsHarvestAll` | exercise11/task3/beehive.c:133-168 | every schedule with enough bee operations, whoever is scheduled when, harvests the whole field |
| `BeehiveResults.StrandedOnlyAfterHarvest` | exercise11/task3/beehive.c:133-167 | if a bee is inside a round while another has left the loop, all flowers were harvested, no bear has won, and main has ended the simulation |
| `BeehiveResults.BearEndsTheRound` | exercise11/task3/beehive.c:161-167 | once a bear has won, all bees are either still before the end of that round or at the loop test; none has started another round |
| `BeehiveResults.LeavingShrinks` | exercise11/task3/beehive.c:133-168 | once `must_terminate` is stored, by main or for a bear, every operation of a bee lowers the number of operations left |
| `BeehiveResults.CannotMove` | exercise11/task3/beehive.c:133-168 | a bee is blocked exactly when it waits for a mutex that is taken, waits in the barrier, or has left |
| `BeehiveResults.StuckExactlyWhenStranded` | exercise11/task3/beehive.c:133-168 | no bee can go on, and not all have left, if and only if some have left and all others wait in the first barrier of a round; then all flowers are collected and counted and the hive stands |
| `BeehiveResults.FinalReport` | exercise11/task3/beehive.c:244-258 | when main has joined all bees, either the hive is destroyed or the counter is W*H and no nectar is left |
| `BeehiveTermination.PartedKept` | exercise11/task3/beehive.c:133-168 | once `must_terminate` is stored, no operation parts the bees or brings them together; parted means one at the loop test or gone, another between that test and the end of the first barrier |
| `BeehiveTermination.BearPartsNobody` | exercise11/task3/beehive.c:161-167 | when a bear has won, the bees are not parted |
| `BeehiveTermination.StoreDecides` | exercise11/task3/beehive.c:242 | in every continuation of a state with `must_terminate` stored: if the bees are parted there, they never all leave; if they are not, they never get stuck |
| `BeehiveTermination.BeesLeaveExactly` | exercise11/task3/beehive.c:239-247 | with `must_terminate` stored, some continuation has all bees leave if and only if they are not parted, and some gets stuck if and only if they are |
| `BeehiveTermination.CanEndExactly` | exercise11/task3/beehive.c:239-247 | from a reachable state the program can end, with all bees joined, if and only if `must_terminate` has not been stored while the bees are parted |
| `BeehiveStranding.StrandingIsReachable` | exercise11/task3/beehive.c:239-247 | one flower and two bees: a run after which one bee has left and the other waits at the barrier forever |
| `BeehiveBear.ExactlyOneMeetsTheBear` | exercise11/task3/beehive.c:161 | when the first barrier of a round opens, the serial bee goes to look for a bear and every other bee to the second barrier |
| `BeehiveBear.OnlyTheSerialBee` | exercise11/task3/beehive.c:161 | a bee starts to look for a bear only when it is the serial one at that barrier |
| `BeehiveBear.BearTurn` | exercise11/task3/beehive.c:110-124 | if the bear wins, the bee goes on to store that; if not, it goes to the second barrier, and in both cases memory is as before |
| `BeehiveBear.ThreeTurns` | exercise11/task3/beehive.c:161-166 | with a bear that wins, three turns of the bee that meets it set `must_terminate` and the destruction of the hive, and leave field and counter alone |
| `BeehiveBear.DestroyedExactly` | exercise11/task3/beehive.c:161-166 | under every schedule, the hive is destroyed if and only if some bee that looked for a bear had a turn at which the bear won, and at least two turns after it |
| `BeehiveBear.SomeBeeMeetsTheBear` | exercise11/task3/beehive.c:126-161 | in every hive, with any number of bees and flowers, some schedule makes a bee look for a bear |
| `BeehiveBear.DestructionIsReachable` | exercise11/task3/beehive.c:161-166 | in every hive some schedule ends with the hive destroyed |
| `BeeWork.VisitIsTheFieldSection` | exercise11/task3/beehive.c:149-159 | the bee's seven operations under the field mutex do together what `Visit` does at once |
| `BeeWork.Hive.constructor` | exercise11/task3/beehive.c:187-216 | every flower has nectar, the queue holds W*H/2 alone, the counter is 0 |
| `BeeWork.Hive.ReportOne` | exercise11/task3/beehive.c:83-87 | pushes a listed position if it has nectar, and does nothing for the error value |
| `BeeWork.ReportsInOrder` | exercise11/task3/beehive.c:76-90 | what a bee at column x and row y reports: of the flowers above, below, left and right of it those that have nectar, in this order |
| `BeeWork.Hive.CheckNearbyFlowers` | exercise11/task3/beehive.c:76-90 | appends to the queue, of the flowers at (x, y-1), (x, y+1), (x-1, y) and (x+1, y), those that exist and have nectar, in this order, and leaves the field alone |
| `BeeWork.Hive.Visit` | exercise11/task3/beehive.c:149-159 | takes the nectar, counts and reports if there is nectar, otherwise changes nothing |
| `BeehiveProgram.Colony.Fly` | exercise11/task3/beehive.c:126-170 | in place, a bee takes exactly the step of the step function, or none when it is blocked |
| `BeehiveProgram.Colony.FetchTask` | exercise11/task3/beehive.c:135-143 | the operations under the queue mutex, on the linked queue |
| `BeehiveProgram.Colony.Harvest` | exercise11/task3/beehive.c:149-159 | the operations under the field mutex, on the field array, the counter and the linked queue |
| `BeehiveProgram.Colony.Decide` | exercise11/task3/beehive.c:161-166 | the loop test and the two stores of the serial bee after a lost fight |
| `BeehiveProgram.Colony.Wait` | exercise11/task3/beehive.c:161-167 | the last bee to arrive at the barrier releases all of them, one as the serial thread |
| `BeehiveProgram.Colony.Watch` | exercise11/task3/beehive.c:239-247 | the two reads of main's loop, its store of `must_terminate`, and its joins in order |
| `BeehiveProgram.Simulate` | exercise11/task3/beehive.c:172-258 | the whole program under any schedule: whether main has joined all bees and what it reports are those of the state that the schedule leads to; the hive is destroyed if and only if a bear won and its bee had two more turns; the number is at most W*H, and W*H if main has finished and the hive stands |
| `BeehiveProgram.TasksAreInside` | exercise11/task3/beehive.c:142-157 | no bee ever accesses the field outside its bounds |
| `MyQueue.Queue.constructor` | exercise06/task3/myqueue.h:18-20 | an empty queue |
| `MyQueue.Queue.IsEmpty` | exercise06/task3/myqueue.h:22-24 | tells whether the sequence of values is empty |
| `MyQueue.Queue.Push` | exercise06/task3/myqueue.h:26-30 | relinks the nodes so that the value is behind all others, which keep their order |
| `MyQueue.Queue.Pop` | exercise06/task3/myqueue.h:32-39 | returns and unlinks the first value; the others keep their order |
| `WorkerPoolInvariant.StepKeepsInv` | exercise06/task3/task3.c:86-102 | every operation, spurious wakeups included, keeps the queue's contents, the pills and the wakeup count right |
| `WorkerPoolInvariant.WakeupsKept` | exercise06/task3/task3.c:52-65 | every operation keeps: nobody waits, or the queue is no longer than the consumers that will look at it and the wakeups still due |
| `WorkerPoolInvariant.ReachableInv` | exercise06/task3/task3.c:52-102 | the invariant holds in every state of every interleaving |
| `WorkerPoolResults.FirstInFirstOut` | exercise06/task3/task3.c:52-64 | the queue always is what has been pushed without what has been popped, in program order |
| `WorkerPoolResults.MutualExclusion` | exercise06/task3/task3.c:90-95 | at most one thread is between a lock and an unlock: one consumer, or main |
| `WorkerPoolResults.InOneHand` | exercise06/task3/task3.c:94-101 | a popped value is the one pushed at that place, and in the hand of one consumer only |
| `WorkerPoolResults.PillsComeLastAndOnce` | exercise06/task3/task3.c:97-98 | a consumer gets a pill only after all ordinary values were popped, and never a second one |
| `WorkerPoolResults.FinishedMeansDelivered` | exercise06/task3/task3.c:69-76 | after all joins the queue is empty, every value was popped, and each consumer has its own pill |
| `WorkerPoolResults.NoWakeupIsLost` | exercise06/task3/task3.c:52-65 | whenever main does not hold the mutex, nobody waits or the queue is no longer than the number of consumers that are awake and will pop again |
| `WorkerPoolResults.NeverStuck` | exercise06/task3/task3.c:52-102 | until all consumers are joined, main or a consumer can go on without a spurious wakeup |
| `WorkerPoolResults.RemainingShrinks` | exercise06/task3/task3.c:52-102 | every operation that gets something done lowers a measure; a spurious wakeup, or a look into an empty queue while polling, raises it by at most three |
| `WorkerPoolResults.RunsAreShort` | exercise06/task3/task3.c:52-102 | in every run the operations that get something done are at most a bound in the numbers of values, consumers and instructions, plus three for each spurious wakeup or look into an empty queue |
| `WorkerPoolResults.RunsEnd` | exercise06/task3/task3.c:52-102 | with a condition variable, that bound is one on the length of every run without spurious wakeups |
| `WorkerPoolEndings.CanFinish` | exercise06/task3/task3.c:52-102 | from every reachable state, without any spurious wakeup, some schedule joins all consumers |
| `WorkerPoolEndings.MaySpin` | exercise06/task2/task2.c:86-88 | a polling consumer can look into the empty queue any number of times without effect |
| `WorkerPoolEndings.BoundedExactly` | exercise06/task2/task2.c:86-102 | there is a bound on the runs without spurious wakeups if and only if consumers wait on a condition variable |
| `SumConsumers.ConfigWellFormed` | exercise06/task3/task3.c:52-65 | main pushes n alternating values and one INT_MAX per consumer, only under the mutex, and leaves no push without a wakeup |
| `SumConsumers.ScriptInFull` | exercise06/task3/task3.c:52-65 | main's instructions are n + c times lock, push, signal, unlock, where value k is 1 or -1 in turn and 2147483647 from n on, and then one broadcast |
| `SumConsumers.PollingScriptInFull` | exercise06/task2/task2.c:53-63 | in the polling variant they are n + c times lock, push, unlock with the same values, and nothing else |
| `SumConsumers.Conservation` | exercise06/task3/task3.c:89-101 | in every reachable state the consumers' sums, the values in their hands and the ordinary values in the queue add up to the alternating values pushed so far |
| `SumConsumers.OwnShare` | exercise06/task3/task3.c:94-101 | in every reachable state the sum of each single consumer and the value in its hand are together what it has popped itself, so this is what it prints when it exits |
| `SumConsumers.FinalSum` | exercise06/task3/task3.c:67-78 | every finished run has an empty queue and the final sum n mod 2, also in the polling variant |
| `SumConsumers.NeverStuck` | exercise06/task3/task3.c:52-102 | until main has joined all consumers, some thread can go on without a spurious wakeup |
| `SumConsumers.CanFinish` | exercise06/task2/task2.c:53-102 | from every reachable state of either variant, without a spurious wakeup, some schedule finishes with the sum n mod 2 |
| `PoolProgram.Pool.Work` | exercise06/task3/task3.c:86-102 | in place, a worker takes exactly the step of the step function, or none when it is blocked |
| `PoolProgram.Pool.Test` | exercise06/task3/task3.c:91-93 | on an empty queue, releases the mutex and waits in one operation; in the polling variant goes on without a value |
| `PoolProgram.Pool.Pop` | exercise06/task3/task3.c:94 | unlinks the first value into the worker's hand |
| `PoolProgram.Pool.WakeOne` | exercise06/task3/task3.c:56 | a signal wakes one waiting worker, whichever, if there is one |
| `PoolProgram.Pool.WakeEverybody` | exercise06/task3/task3.c:65 | a broadcast wakes all waiting workers and no others |
| `PoolProgram.Pool.Produce` | exercise06/task3/task3.c:52-76 | main executes its next instruction, or joins the next worker if it has exited |
| `SumProgram.Program.Consume` | exercise06/task3/task3.c:94-101 | adds the value in hand to the consumer's own sum, unless it is the pill |
| `SumProgram.Program.Produce` | exercise06/task3/task3.c:67-76 | joining a consumer adds its sum to the total |
| `SumProgram.Run` | exercise06/task3/task3.c:20-84 | either variant of the program under any schedule: whether all consumers are joined and the total are those of the state that the schedule leads to, and the total of a finished program is n mod 2 |
| `HandlerPool.ConfigWellFormed` | exercise08/task3/server.c:93-127 | the locks, signals and pills of main's script meet the conditions for the results about pools |
| `HandlerPool.AcceptScript` | exercise08/task3/server.c:93-110 | connection k is lock, push of its socket, signal, unlock, at place 4k of the script |
| `HandlerPool.PillScript` | exercise08/task3/server.c:112-118 | after all connections comes one lock, a push of -1 for each handler, one broadcast and one unlock, and nothing else |
| `HandlerPool.StepKeepsInv` | exercise08/task3/server.c:135-214 | every operation keeps the balance equal to the popped donations that are no longer pending, and the donation mutex with its one owner |
| `HandlerResults.BalanceIsExact` | exercise08/task3/server.c:192-194 | in every reachable state the balance and the pending donations add up to the donations of the connections popped so far |
| `HandlerResults.OneDonationAtATime` | exercise08/task3/server.c:192-194 | at most one handler is between locking and unlocking the donation mutex, and it has a donation in hand |
| `HandlerResults.EffectOfARequest` | exercise08/task3/server.c:192-208 | an operation changes the balance only under the donation mutex, by the amount of the request in hand, and `running` only by one, for a shutdown request in hand |
| `HandlerResults.EverythingHandled` | exercise08/task3/server.c:120-127 | after all joins the balance is the sum of all donations, and `running` was decremented once per shutdown request |
| `HandlerResults.HandlersLeaveLast` | exercise08/task3/server.c:145-148 | a handler leaves only when no connection is queued any more, and no handler takes a second pill |
| `HandlerResults.NeverStuck` | exercise08/task3/server.c:135-214 | the queue mutex, the condition variable and the donation mutex together never block the server for good |
| `HandlerResults.AheadShrinks` | exercise08/task3/server.c:135-214 | every operation except a spurious wakeup lowers a measure |
| `HandlerResults.RunsAreShort` | exercise08/task3/server.c:93-214 | a bound on the length of every run of the server |
| `HandlerResults.CanFinish` | exercise08/task3/server.c:93-214 | from every reachable state, without a spurious wakeup, some schedule joins all handlers |
| `ServerProgram.Server.OnQueue` | exercise08/task3/server.c:105-155 | in place, a handler fetches its next connection only after it is done with the last |
| `ServerProgram.Server.HandleClient` | exercise08/task3/server.c:157-219 | in place, the effects of a request: lock, add and unlock for a donation, one decrement for a shutdown, none otherwise |
| `ServerProgram.Serve` | exercise08/task3/server.c:30-133 | the whole server under any schedule: whether all handlers are joined, the balance and `running` are those of the state that the schedule leads to, and after all joins no donation and no shutdown request is missing |
| `DiceGame.BestIsTheMaximum` | exercise10/task1/task1.c:45-54 | the scan's result bounds all rolls, occurs among them, and comes with its multiplicity |
| `DiceGame.ScanRolls` | exercise10/task1/task1.c:45-54 | the loop of the elected player computes that result |
| `DiceInvariant.StepKeepsInv` | exercise10/task1/task1.c:37-77 | every operation keeps all players in one part of the round and n equal to the players not yet off it |
| `DiceInvariant.ScanCountsHolders` | exercise10/task1/task1.c:47-54 | the zeros that eliminated players leave behind do not change the result of the scan |
| `DiceResults.SomeoneSurvives` | exercise10/task1/task1.c:64-69 | n counts the players that have not taken themselves off, and is at least 1 in every reachable state |
| `DiceResults.ExactlyOneWinner` | exercise10/task1/task1.c:78-80 | when all threads have ended, exactly one player has not lost |
| `DiceResults.LeaveTogether` | exercise10/task1/task1.c:37 | once a player has left the loop, n is 1 and all others have left or are at the loop test |
| `DiceResults.NeverStuck` | exercise10/task1/task1.c:44-76 | no player ever waits alone at a barrier: until all have ended, one can go on |
| `DiceResults.FewDecisiveRounds` | exercise10/task1/task1.c:55-58 | a game has at most players - 1 rounds that are not ties |
| `DiceResults.ElectionIsRight` | exercise10/task1/task1.c:44-61 | at the second barrier, `current_max` is the highest roll of the survivors and `current_max_count` how many of them have it |
| `DiceResults.EliminationInterval` | exercise10/task1/task1.c:63-71 | of m holders among n survivors none is eliminated if m = n, otherwise at least min(m, n-m) and at most m |
| `DiceResults.OnlyHoldersLeave` | exercise10/task1/task1.c:64-70 | whoever decrements n has the highest roll and has not lost before |
| `DiceDrives.StepProgress` | exercise10/task1/task1.c:37-77 | every operation of a player except the one that completes an election brings the players closer to the next |
| `DiceDrives.RunsAreShort` | exercise10/task1/task1.c:37-77 | a run of k players with t ties has at most k(k+14)(k+t) operations |
| `DiceEndings.ToElection` | exercise10/task1/task1.c:37-61 | from anywhere in the first half of a round some schedule leads to the election, with any rolls wanted for the players that have not rolled |
| `DiceEndings.EveryGameCanEnd` | exercise10/task1/task1.c:37-82 | from every reachable state, some schedule and rolls end the game |
| `DiceOutcomes.MoveInGame` | exercise10/task1/task1.c:64-66 | every move of the abstract race of reads and decrements is a step of some player |
| `DiceOutcomes.EveryOutcomeHappens` | exercise10/task1/task1.c:63-71 | from every election with m < n holders, each number in the interval is eliminated by some schedule up to the third barrier |
| `DiceOutcomes.OutcomeInInterval` | exercise10/task1/task1.c:63-71 | every schedule from an election to the end of its elimination eliminates a number in the interval, and nobody if m = n |
| `DiceOutcomes.AllHoldersLeaveExactly` | exercise10/task1/task1.c:63-71 | at an election, all holders are eliminated under every schedule if and only if 2m <= n |
| `DiceOutcomes.FirstElection` | exercise10/task1/task1.c:37-61 | for every k >= 2 and 1 <= m <= k, a run from the start of a game of k players reaches an election with m holders |
| `DiceOutcomes.EveryFirstRoundHappens` | exercise10/task1/task1.c:37-71 | for every k, m < k and e in the interval, a run from the start whose first round eliminates exactly e of m holders |
| `DiceHistory.OutByDeparture` | exercise10/task1/task1.c:64-69 | over every run, a player is off n if and only if it has decremented n, and it does so at most once |
| `DiceHistory.WinnerNeverLeft` | exercise10/task1/task1.c:64-80 | when all threads have ended, the winner has never decremented n and every other player has done so exactly once |
| `DiceHistory.RollsAreThrown` | exercise10/task1/task1.c:38-42 | the entry of a player that has not lost is what it rolled last |
| `DiceHistory.FacesOnly` | exercise10/task1/task1.c:39-68 | no entry ever exceeds 6 |
| `DiceHistory.SixFaces` | exercise10/task1/task1.c:39-40 | a player that is to roll can roll 1 to 6 and nothing else, and this changes its own entry only |
| `DiceHistory.ExactlyOneElected` | exercise10/task1/task1.c:44 | when the first barrier of a round opens, the serial player goes to scan the rolls and every other one to the second barrier |
| `DiceProgram.Game.Play` | exercise10/task1/task1.c:31-82 | in place, a player takes exactly the step of the step function, or none when it waits or has left |
| `DiceProgram.Game.Operate` | exercise10/task1/task1.c:37-71 | the operations between barriers on the shared rolls, n and the election's result |
| `DiceProgram.Game.Scan` | exercise10/task1/task1.c:47-54 | one turn of the scan on the shared maximum and count |
| `DiceProgram.Game.Wait` | exercise10/task1/task1.c:44-76 | the last player to arrive at a barrier releases all of them, one as the serial thread |
| `DiceProgram.PlayGame` | exercise10/task1/task1.c:84-137 | a whole game under any schedule: whether all threads have ended is as in the state that the schedule leads to, the winners are exactly the players that have left the loop there without having lost, there is at most one, and one when all have ended |
| `DiceProgram.OneWinnerAtMost` | exercise10/task1/task1.c:78-80 | no two players ever are out of the loop without having lost, also before the game has ended |
| `RingBuffer.SlotsHoldTheirValues` | exercise05/task3/task3.c:112-116 | every item j that has been written and not yet read is in slot j mod L as j*N mod 2^64 |
| `RingBuffer.SlotExclusion` | exercise05/task3/task3.c:101-116 | with both children between their wait and their post, 1 <= i-j <= L-1 and their slots differ |
| `RingBuffer.SlotsAreConserved` | exercise05/task3/task3.c:74 | the two semaphores and the children inside their sections add up to the slots that `sem_init` grants |
| `RingBuffer.AllGranted` | exercise05/task3/task3.c:74 | `sem_init` grants all L slots if and only if L is at most `SEM_VALUE_MAX` |
| `RingBuffer.GrantedInFull` | exercise05/task3/task3.c:74 | of a length k * 2^32 + r with r < 2^32, r slots are granted if r <= 2147483647, and none otherwise |
| `RingBuffer.NeverStuck` | exercise05/task3/task3.c:101-116 | if at least one slot is granted, a child can take a step until both are done |
| `RingBuffer.StuckExactly` | exercise05/task3/task3.c:74-116 | the children can get stuck if and only if no slot is granted, and then they are from the start |
| `RingBuffer.RunLength` | exercise05/task3/task3.c:101-116 | no run takes more than 6K steps, and exactly the finished ones take 6K |
| `RingBuffer.FinalResult` | exercise05/task3/task3.c:103 | the result of every finished run is N*K*(K+1)/2 mod 2^64 |
| `RingBuffer.ValidateResult` | exercise05/task3/task3.c:129-134 | the loop computes the result minus N*K*(K+1)/2 mod 2^64 |
| `RingBuffer.SharedMemory.Produce` | exercise05/task3/task3.c:112-116 | child A's operations on the array and the semaphores |
| `RingBuffer.SharedMemory.Consume` | exercise05/task3/task3.c:101-105 | child B's operations on the array, the semaphores and the result |
| `RingBuffer.Program` | exercise05/task3/task3.c:78-97 | both children under any schedule and then the parent: whether they have ended and the checksum are those of the state that the schedule leads to, and the checksum of a finished run is 0 |
| `Philosophers.LeftIsModulo` | exercise07/task2/task2.c:11 | the left chopstick counted without a division is that of the macro |
| `Philosophers.LowerNumberFirst` | exercise07/task2/task2.c:19-25 | everybody needs the chopsticks n and (n + 1) mod size, and takes the one with the lower number first |
| `Philosophers.ChopsticksHeld` | exercise07/task2/task2.c:19-28 | in every reachable state, which chopsticks a philosopher holds: the lower one before it has both, both while eating, the right one after putting down the left, else none |
| `Philosophers.NeighboursNeverEatTogether` | exercise07/task2/task2.c:19-28 | a philosopher and the one to its left never eat at the same time |
| `Philosophers.HolderOfHighest` | exercise07/task2/task2.c:19-25 | from any chopstick in use, following who waits for whom leads to a philosopher that can go on |
| `Philosophers.NeverStuck` | exercise07/task2/task2.c:19-25 | as long as a philosopher is not done, some philosopher can go on |
| `Philosophers.RunLength` | exercise07/task2/task2.c:18-29 | every run has at most size * (5 * iterations + 1) steps, and that many exactly when all are done |
| `Philosophers.MealsAreExact` | exercise07/task2/task2.c:18 | whoever is done has eaten exactly the given number of times, and nobody more often |
| `Philosophers.Table.Dine` | exercise07/task2/task2.c:16-33 | a philosopher's operations on the shared array of mutexes |
| `Philosophers.Dinner` | exercise07/task2/task2.c:35-46 | the dinner under any schedule: everybody's meals and the number of turns with an effect are those of the schedule; that number is at most the bound, and reaches it exactly when all are done |
| `MemoryTracker.FreeSlotExists` | exercise01/task1/includes/memory_tracking.c:14-22 | a slot with address 0 exists exactly when fewer addresses are live than the table has slots |
| `MemoryTracker.TakeSlot` | exercise01/task1/includes/memory_tracking.c:39-41 | filling a free slot with a new address adds that address to the map and nothing else, and keeps addresses distinct |
| `MemoryTracker.DropSlot` | exercise01/task1/includes/memory_tracking.c:61 | clearing a slot's address removes that address from the map and nothing else |
| `MemoryTracker.Tracker.FindAddress` | exercise01/task1/includes/memory_tracking.c:14-22 | the first slot with the address, or none if no slot has it |
| `MemoryTracker.Tracker.AllocateMemory` | exercise01/task1/includes/memory_tracking.c:24-44 | the table with sizes and lines, the totals and the error byte change as the books of the calls so far say, whose history grows by this call |
| `MemoryTracker.Tracker.FreeMemory` | exercise01/task1/includes/memory_tracking.c:46-64 | the same, and tells whether the address was live |
| `MemoryTracker.Tracker.IsMemoryLeaked` | exercise01/task1/includes/memory_tracking.c:86-88 | true if and only if the sizes that were asked for and not released do not add up to 0 modulo 2^64 |
| `MemoryTracker.Tracker.CheckCleanMemoryHandling` | exercise01/task1/includes/memory_tracking.c:90-92 | true if and only if the sizes asked for and not released add up to 0 modulo 2^64, and no call has failed, met a full table or released what was not live |
| `MemoryTracker.RunKeepsBooks` | exercise01/task1/includes/memory_tracking.c:24-64 | over every sequence of calls the table never overflows, the totals stay balanced, and the error byte says which errors happened |
| `MemoryTracker.LiveExactly` | exercise01/task1/includes/memory_tracking.c:24-64 | over every sequence of calls, an address is live if and only if some call took it and no later call released it; its block is the size and the line modulo 2^16 of that call |
| `MemoryTracker.PendingOnce` | exercise01/task1/includes/memory_tracking.c:24-64 | no two calls that are not released yet took the same address |
| `MemoryTracker.OutstandingIsLive` | exercise01/task1/includes/memory_tracking.c:39-63 | the sizes asked for and not released are together the size of the live memory |
| `MemoryTracker.ErrorsExactly` | exercise01/task1/includes/memory_tracking.c:29-59 | a failed allocation, a full table or a double free has been noted if and only if some call was one |
| `MemoryTracker.TotalsBalance` | exercise01/task1/includes/memory_tracking.c:43-62 | after every sequence of calls, allocated minus freed is the size of the live memory, modulo 2^64 |
| `MemoryTracker.CleanExactly` | exercise01/task1/includes/memory_tracking.c:86-92 | over every sequence of calls, the clean check holds if and only if the sizes asked for and not released add up to 0 modulo 2^64 and no call failed, met a full table or released what was not live |
| `MemoryTracker.FailedAllocIsAmbiguous` | exercise01/task1/includes/memory_tracking.h:14-20 | for every capacity and run, the error byte is FAILED_ALLOC if and only if an allocation failed, or both a double free and a full table happened |
| `MemoryTracker.NullFreeGoesUnnoticed` | exercise01/task1/includes/memory_tracking.c:47-51 | a free of NULL anywhere in a run changes nothing |
| `MemoryTracker.CleanAfterNullFree` | exercise01/task1/includes/memory_tracking.c:90-92 | the clean check holds after a free of NULL |
| `Plugins.Strdup` | exercise10/task3/map_string.c:15 | a fresh buffer with the same text |
| `Plugins.FlipIsXor` | exercise10/task3/xor_string.c:8 | the arithmetic form of XOR with 0x20 is the XOR of the bytes |
| `Plugins.XorString` | exercise10/task3/xor_string.c:5-11 | the text of the result is the text up to its first space, because the space became the terminator, with each byte XORed with 0x20 |
| `Plugins.CaesarCipher` | exercise10/task3/caesar_cipher.c:5-14 | each letter of the text moves by exactly 13 places, up or down, within its case, and every other byte stays |
| `Plugins.ThirteenPlaces` | exercise10/task3/caesar_cipher.c:8-10 | for every byte: upper case stays upper case, lower case stays lower case, a letter moves by exactly 13, and anything else stays |
| `Plugins.XorCutsAtSpace` | exercise10/task3/xor_string.c:7-9 | XOR keeps exactly what is before the first space, with each byte XORed with 0x20 |
| `Plugins.ReverseString` | exercise10/task3/reverse_string.c:5-13 | byte i of the result is byte i of the text from its end |
| `Plugins.MapString` | exercise10/task3/map_string.c:15-50 | the final text is that of all plugins applied in order |
| `Plugins.ChainInOrder` | exercise10/task3/map_string.c:17-50 | a chain works from its first plugin to its last: it is its first part followed by the rest |
| `Plugins.PlainClosed` | exercise10/task3/xor_string.c:5-11 | texts without NUL and space are mapped to such texts by all three plugins, and each plugin undoes itself on them |
| `Plugins.Restores` | exercise10/task3/map_string.c:17-50 | a chain and then its reverse restore every text without a space |
| `Plugins.SpaceIsLost` | exercise10/task3/xor_string.c:8 | a chain with an XOR shortens every text that has a space |
| `Plugins.ChainIsReversible` | exercise10/task3/map_string.c:17-50 | a chain and then its reverse restore a text if and only if the chain has no XOR or the text no space |
| `Plugins.HelloWorldIsLost` | exercise10/README.md:122-125 | the documented example ends as "BYYRu" |
| `Substitution.SubstituteString` | exercise10/task3/library_one.c:26-32 | the text of the result is every byte substituted |
| `Substitution.LettersBecomeKeys` | exercise10/task3/library_one.c:12-24 | letter number i of the alphabet becomes key number i of QWERTYUIOPASDFGHJKLZXCVBNM in its own case, and every other byte stays |
| `Substitution.TextOfKeys` | exercise10/task3/library_one.c:26-32 | the result on a text, byte by byte, and that it ends where the text ends |
| `Substitution.KeepsKind` | exercise10/task3/library_one.c:16-24 | case and everything that is not a letter are preserved, and lower case follows upper case |
| `Substitution.OnePlaceOn` | exercise10/task3/library_one.c:12-14 | the table moves each letter one place on in a cycle of 21, 3 or 2 letters |
| `Substitution.RestoresExactly` | exercise10/task3/library_one.c:11-32 | k applications restore every text if and only if 42 divides k |
| `Substitution.TwentySixIsNotEnough` | exercise10/task3/library_one.c:11 | some text is not restored by 26 applications |

## Left out

- Sockets, HTTP parsing and responses, signals, shared memory objects, `fork`, `dlopen`, sleeping and printing:
  accepted connections, their requests, die rolls, bears and plugin chains are inputs.
- Failure paths: thread creation, joining, barrier and semaphore initialisation, plugins that do not load.
- Freeing memory and destroying mutexes, barriers and condition variables.
- The data race of the beehive's queue: what unsynchronised pushes and pops could do is not modelled, see Assumptions.
- The beehive without bees, and fields of more than `INT_MAX` flowers.
- Sums are whole numbers: overflow of the `int` and `long` sums of exercise 6 is not modelled, where no sum leaves
  the range from -n to n; the counters of the tracker and the circular buffer do wrap around.
- Amounts of donations are whole numbers of a common unit: rounding of `double` is not modelled.
- HandlerResults.NeverStuck: says nothing about leaving the accept loop, because `running` becomes negative after a
  second shutdown request and the loop goes on; leaving it is an event.
- WorkerPoolResults.RunsAreShort: for the polling variant it bounds only the operations that get something done, because
  consumers may look into an empty queue any number of times, see `WorkerPoolEndings.BoundedExactly`.
- The `tid` array of exercise 6 is allocated with n entries but has one per consumer: the model has one handle per
  consumer.
- The listing that the allocation tracker prints of the blocks that are still live.
- The beehives of exercise 11, tasks 1 and 2: the same protocol without the bear or with other cleanup.
- The address book, counters, Fibonacci, calculator, thread pool, chat server and message queue exercises: unfinished,
  dominated by input and output, or easy next to the above.
