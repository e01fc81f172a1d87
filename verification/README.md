# Verified models of the system-programming projects

The project models six pieces of the repository in Dafny and proves what they are
meant to guarantee. The concurrent pieces are state machines: a deterministic step
function, an "enabled" predicate, and runs of any length over any number of threads.
Beside each state machine stands a class whose methods update the program's
globals, one method per section of code; every method is proved to be the step of
the same name, so what is proved of runs holds of every interleaving of the methods.

- **PideShop** (`final/`). One client session: a submitter, any number of cooks, a
  timer thread per baked order and any number of couriers share three ring queues, a
  pool of three oven apparatus, the counter of outstanding orders and the send-once
  flag. `RingQueue` is the queue; `PideShop` the state machine; `PideInvariants` what
  every step keeps; `PideThreads` what each thread does next and when it waits; `PideConservation`, `PideRace`, `PideTermination`, `PideProgress`, `PideLeftover`,
  `PideDeadlock`, `PideDelivered`, `PideMisdelivery`, `PideCompletion`, `PideApparatus` the results; `Shop` the server's
  globals and their updates; `Cancellation` the apparatus when the client cancels;
  `MostEfficient` the scan at the end of a session.
- **Directory copier** (`hw4_2024/`). `TreeWalk` is the recursive walk; `CopyQueue`
  the ring; `CopyProtocol`, `CopyThreads`, `CopyTheorems`, `CopyRace` the manager and the
  workers;
  `Copier` the globals; `TreeCopy` puts the walk and the workers together.
- **File editing and session** (`midterm/`). `Lines` reads a text as lines, `LineFile`
  edits a file by byte offsets, `Session` is the protocol over one FIFO with the
  transfers through a shared memory, `SessionCommands` what the single commands do in
  it, `SessionLink` what both sides share.
- **Message codec** (`hw2_2024/`). `Numerals`, `Codec`, `CodecTheorems`.
- **Square root and distance** (`final/final_common.c`). `Newton`, over the reals.
- **Parking lot** (`hw3_2024/`). `Parking` and `ParkingLot`.

`Sums` holds sums over sequences, and `PideScripts` runs that carry one order
through a section of the shop.

## What came out

Several properties the programs are meant to have hold only under a condition. The
code is modelled as it is, and the condition is proved to be exact.

- A courier reads `totalOrder` twice after a wake-up (`final/server.c` lines 545 and
  557), and the submitter takes another mutex when it increments it. If the increment
  falls between the reads, the courier dequeues from an empty queue and carries an
  all-zero order. This can happen if and only if there are a cook, two couriers and
  two orders (`PideRace.PhantomFreeExactly`). Runs in which no increment falls
  between the two reads of a courier are called calm below.
- The all-zero order is counted like a real one, so DELIVERED can be sent while an
  order is still with the cooks, again if and only if there are a cook, two couriers
  and two orders (`PideMisdelivery.DeliveredMeansDoneExactly`). Race or not,
  DELIVERED is sent exactly once when as many are counted as there are orders.
- Every run of a session ends, after a number of steps linear in the orders times the
  threads (`PideTermination.EveryRunEnds`). Whatever the scheduling, a session that is
  run to its end has counted as many as there are orders and has sent DELIVERED once
  if and only if there are a cook and a courier, at most 200 orders, and at most two
  cooks or at most eight orders (`PideCompletion.AlwaysCompletesExactly`); and every
  order was delivered if and only if in addition there is one courier or one order
  (`PideCompletion.AlwaysDeliversExactly`).
- An order can always move on in calm runs if and only if there are a cook and a
  courier, at most 200 orders, and at most two cooks or at most eight orders
  (`PideDeadlock.CalmDeadlockFreeExactly`). More than 200 orders can block the submitter
  on a condition that nobody signals, and three cooks with nine orders can hold all
  three apparatus in front of a full oven.
- A cook at a full oven gives its apparatus back and retakes it without a look at
  the count, so `aparatus` stays within 0 and 3 if and only if there are at most six
  orders or no cooks (`PideApparatus.InRangeExactly`).
- A cook tests `siparisIptal` twice before it releases. An apparatus is lost exactly
  when the flag rises between the two tests (`Cancellation.ShelfFullExactly`).
- `totalBytesCopied` is incremented without a lock. It is the sum of the file sizes
  in every run if and only if there is one worker or at most one file that is not
  empty (`CopyRace.TotalExactly`).
- A line written at number `n` reads back as line `n` if and only if the file has at
  least `n - 1` whole lines; a larger number writes at the top
  (`LineFile.WriteReadsBackExactly`).
- The file session can come to a halt by a readF without a positive line number, by
  arcServer or by a list of a folder that cannot be opened, which get no response; by
  a transfer at which the client exits, because it lacks the file to send or cannot
  create the file to fetch; and by transfers without another side: the server's fork
  leaves silently when it lacks the file to download or cannot create the file to
  upload to, and the client takes any response that starts with "upload" or
  "download" for a transfer, be it a file name, a line of a file, or the user's own
  text, which writeT returns when it cannot open its file. A surplus of one sent is
  tolerated, and makes up for one such fetch later. For a user who neither quits nor
  kills the server the condition is exact (`Session.CommandsThatHang`), under what
  "Left out" says of the transfers.

## Model

| member | source | states |
|---|---|---|
| RingQueue.FirstInFirstOut | final/queue.c:27-45 | over any sequence of operations: what was taken out followed by what is queued is what was queued at first followed by what was accepted; the bound is kept; a dequeue returns more than it takes out only from an empty queue |
| RingQueue.FillThenDrain | final/queue.c:27-45 | what is put into an empty queue comes out in the same order: the first items up to the capacity, and all-zero items from then on |
| RingQueue.Perform | final/queue.c:3-45 | every sequence of operations on the ring returns and leaves what it does on a bounded sequence |
| RingQueue.Queue.constructor | final/queue.c:3-17 | an empty queue of the given capacity on a fresh array |
| RingQueue.Queue.IsEmpty | final/queue.c:19-21 | true exactly when the sequence is empty |
| RingQueue.Queue.IsFull | final/queue.c:23-25 | true exactly when the sequence is as long as the capacity |
| RingQueue.Queue.Enqueue | final/queue.c:27-34 | appends to the sequence, or leaves a full queue as it is |
| RingQueue.Queue.Dequeue | final/queue.c:36-45 | removes and returns the oldest item; from an empty queue the all-zero item and no change |
| RingQueue.Queue.Front | final/queue.c:47-53 | the oldest item, or the all-zero item |
| RingQueue.Queue.Rear | final/queue.c:55-61 | the newest item, or the all-zero item |
| PideInvariants.InitInv | final/server.c:768-780 | a session starts in a state that meets all balances |
| PideInvariants.CookInv | final/server.c:370-520 | every section of a cook keeps all balances |
| PideInvariants.TimerInv | final/server.c:226-342 | every section of a timer thread keeps them |
| PideInvariants.SubmitterInv | final/server.c:632-647 | every section of the submitter keeps them |
| PideInvariants.CourierInv | final/server.c:522-607 | every section of a courier and its delivery keeps them |
| PideInvariants.RunInv | final/server.c:143-654 | so does every run, calm or not, with any number of cooks and couriers |
| PideInvariants.Bounds | final/server.c:632-647 | no queue holds more than the orders that were submitted and not yet bagged, those in hand before it included |
| PideThreads.OneStepAtMost | final/server.c:143-654 | every thread is sequential: never are two of its steps possible |
| PideThreads.SubmitterWaits | final/server.c:632-647 | the submitter has no step exactly when it is through or stuck, and queues an order exactly when one is left, the last is counted and the queue holds fewer than 200 |
| PideThreads.CookWaits | final/server.c:382-512 | a cook has no step exactly when it waits for an order, an apparatus, the oven mutex or a place in the oven; it puts its order in when the oven holds fewer than six and yields when it holds six |
| PideThreads.TimerWaits | final/server.c:239-324 | a timer has no step exactly when it is through or waits for an apparatus, a mutex, or a place in the prepared queue of 200; it never waits for an order in the oven |
| PideThreads.CourierWaits | final/server.c:534-605 | a courier has no step exactly when it waits for the mutex, for an order while one is outstanding, or has nothing to do |
| PideThreads.DepartsFull | final/server.c:535-591 | at its loop a courier departs exactly with three orders, or with one or two when none is outstanding; with room and an order outstanding it takes one if one is prepared and waits otherwise |
| PideThreads.ToursStartFull | final/server.c:535-591 | in every run every tour starts with three orders, or with one or two and none outstanding |
| PideThreads.EachCountsItsOwn | final/server.c:150-164 | in every run each courier is credited with the orders it counted itself |
| PideConservation.EveryOrderInOnePlace | final/server.c:143-654 | in every reachable state each order is in exactly one of eight places, once: unsubmitted, order queue, a cook, oven, a timer, prepared queue, a bag, counted |
| PideConservation.NothingElse | final/server.c:535-581 | what is not an order of the session is nowhere, except one all-zero order per dequeue from the empty prepared queue |
| PideConservation.ConservedExactly | final/server.c:535-581 | the places hold the orders and nothing else in all runs if and only if there are no cooks, at most one courier or at most one order |
| PideConservation.Balances | final/server.c:226-654 | in every reachable state: the oven holds an order for every timer still to come and at most six; a timer with an apparatus finds an order; apparatus on the shelf and held add up to three; totalOrder is never negative and equals the orders in the shop less the uncounted one and the phantoms |
| PideRace.CalmRunInv | final/server.c:545-557 | in calm runs no dequeue meets an empty queue |
| PideRace.SmallRunsAreCalm | final/server.c:545-557 | with no cooks, one courier or one order every run is calm |
| PideRace.Race | final/server.c:545-573 | with two couriers and two orders there is a run in which an all-zero order is dequeued |
| PideRace.PhantomFreeExactly | final/server.c:545-573 | no dequeue meets an empty prepared queue in any run if and only if there are no cooks, at most one courier or at most one order |
| PideTermination.StepMeasure | final/server.c:226-654 | every step that advances an order lowers a weighted sum of stages, and no other step changes it |
| PideTermination.OrdersMoveLinearlyOften | final/server.c:226-654 | in every run of n orders at most 19 n steps advance, for any number of threads |
| PideTermination.StepRemaining | final/server.c:226-654 | every step, waits and give-backs included, lowers a measure of what is left of the run |
| PideTermination.EveryRunEnds | final/server.c:226-654 | every run has at most (2 cooks + 2 couriers + 2) times 19 n + 2 cooks + 2 couriers + 1 steps |
| PideProgress.ApparatusLeft | final/server.c:418-463 | when the oven still has an order and no step advances, two cooks cannot hold all three apparatus |
| PideProgress.AllCounted | final/server.c:150-164 | in every state no more are counted than there are orders, and when as many are, every bag is empty, totalOrder is zero and nothing is left in the shop but what phantoms took the place of |
| PideProgress.Progress | final/server.c:226-654 | in every run of a sound session, calm or not, something can move, or as many are counted as there are orders and totalOrder is zero |
| PideLeftover.DoneWithoutPhantoms | final/server.c:143-654 | when as many are counted as there are orders, every order was counted if and only if no phantom was |
| PideDeadlock.DoomMeansDeadlock | final/server.c:450-463 | a state in which the cooks hold every apparatus before a full oven, or the submitter is stuck, leads to a state with orders left in which none can move |
| PideDeadlock.ReachJam | final/server.c:450-463 | three cooks and nine orders can get there |
| PideDeadlock.ReachStuck | final/server.c:636-639 | with more than 200 orders the submitter can get stuck on the full queue |
| PideDeadlock.CalmDeadlockFreeExactly | final/server.c:226-654 | calm runs: an order can always move until all are counted if and only if there are a cook and a courier, at most 200 orders, and at most two cooks or at most eight orders |
| PideDeadlock.DeadlockFreeExactly | final/server.c:226-654 | all runs: the same if and only if in addition there is one courier or one order |
| PideDeadlock.CountsUpExactly | final/server.c:226-654 | all runs, race or not: something can always move until as many are counted as there are orders if and only if there are a cook and a courier, at most 200 orders, and at most two cooks or at most eight orders |
| PideDelivered.DeliveredAtMostOnce | final/server.c:199-214 | in all runs DELIVERED is sent at most once, only when as many are counted as there are orders, and then every order was counted if and only if no phantom was; while it is missing although all are counted some courier is still to check |
| PideDelivered.CountedThenSent | final/server.c:199-214 | any run, of any session, that has counted as many as there are orders and cannot advance has sent DELIVERED exactly once |
| PideDelivered.CompletedExactlyOnce | final/server.c:143-214 | any run of a sound session that cannot advance has counted as many as there are orders, has totalOrder zero and has sent DELIVERED exactly once; and every order was counted if and only if no phantom was |
| PideMisdelivery.DeliveredTooEarly | final/server.c:143-607 | with a cook, two couriers and two orders, however many more, a run that sends DELIVERED while an order is still in the order queue |
| PideMisdelivery.DeliveredMeansDoneExactly | final/server.c:143-607 | in all runs DELIVERED means that every order was counted if and only if there are no cooks, at most one courier or at most one order |
| PideCompletion.EveryEndIsComplete | final/server.c:143-654 | a sound session, run to its end in any way, has counted as many as there are orders, has totalOrder zero and has sent DELIVERED exactly once; and every order was counted if and only if no phantom was |
| PideCompletion.AlwaysCompletesExactly | final/server.c:143-654 | every run, run to its end, counts as many as there are orders and sends DELIVERED once if and only if there are a cook and a courier, at most 200 orders, and at most two cooks or at most eight orders |
| PideCompletion.AlwaysDeliversExactly | final/server.c:143-654 | every run, run to its end, counts every order of the session and sends DELIVERED once if and only if in addition there is one courier or one order |
| PideApparatus.Overdraw | final/server.c:451-463 | with a cook and seven orders the count can reach minus one |
| PideApparatus.InRangeExactly | final/server.c:418-463 | the count stays within 0 and 3 in every run if and only if there are at most six orders or no cooks |
| PideApparatus.InRangeWhenPaired | final/server.c:451-463 | it stays within 0 and 3 for any number of orders when every give-back is followed at once by its retake |
| Shop.Server.constructor | final/server.c:768-780 | the globals at the start of a session |
| Shop.Server.Submit | final/server.c:634-643 | is the step Submit: queue the next order unless the queue is full |
| Shop.Server.TakeOrder | final/server.c:382-399 | is the step TakeOrder of a cook |
| Shop.Server.PutInOven | final/server.c:450-480 | is the step PutInOven |
| Shop.Server.Yield | final/server.c:451-455 | is the step Yield: the oven is full, give the apparatus back under the oven mutex |
| Shop.Server.Retake | final/server.c:459-463 | is the step Retake: take it without a look at the count, and wait |
| Shop.Server.OvenTake | final/server.c:257-277 | is the step OvenTake, with the broadcast that wakes every cook at the oven |
| Shop.Server.BroadcastOvenEmpty | final/server.c:276 | exactly the cooks that wait for the oven go back to its test |
| Shop.Server.PutPrepared | final/server.c:309-324 | is the step PutPrepared |
| Shop.Server.DequeueIntoBag | final/server.c:558-574 | dequeue into the bag and count down, also from an empty queue |
| Shop.Server.Take | final/server.c:535-575 | is the step Take of a courier |
| Shop.Server.LateTake | final/server.c:557-575 | is the step LateTake: the second read does not agree |
| Shop.Server.CountOrder | final/server.c:153-164 | the next order of the bag is counted, for the courier and for the session |
| Shop.Server.Check | final/server.c:199-214 | is the step Check: the send-once test |
| Shop.Server.Delivery | final/server.c:143-214 | one whole tour: the bag is counted in order, once each, and the tour that completes the session sends DELIVERED |
| Cancellation.StepInv | final/server.c:418-496 | every step of a cook or a timer, and the flag rising at any moment, keeps the balance of the apparatus |
| Cancellation.ApparatusUnderCancellation | final/server.c:418-496 | in every reachable state what is on the shelf and held, with sign, is three less what was lost; and what was lost in the end is the number of cooks between their two tests when the flag rose |
| Cancellation.ShelfFullExactly | final/server.c:485-496 | at rest the shelf is full if and only if no cook was between its two tests when the flag rose |
| Cancellation.ApparatusLost | final/server.c:485-496 | one cook can be caught there, and an apparatus is gone |
| Cancellation.OverfullShelf | final/server.c:434-458 | after a cancel a cook that took none can give one back: four on the shelf |
| Cancellation.Overdrawn | final/server.c:239-249 | after a cancel a timer takes one from the empty shelf: minus one |
| Cancellation.CookWaits | final/server.c:418-496 | only an empty shelf holds a cook up, and only while nothing is cancelled |
| Cancellation.TimerWaits | final/server.c:239-302 | so with a timer |
| MostEfficient.Scan | final/server.c:809-821 | the index is the first courier with the largest count, or what it was before if all counts are zero; all counts are reset |
| MostEfficient.SomebodyDelivered | final/server.c:809-821 | when DELIVERED was sent, in any run, the counts add up to n, so some courier received something, and the largest count times the couriers is at least n |
| MostEfficient.ScanDelivered | final/server.c:809-821 | on the counts of such a run the scan sets its index, to the first courier with the largest count, which is at least the average |
| CopyQueue.Buffer.constructor | hw4_2024/put_your_codes_here/queue.c:15-18 | an empty ring of the given size |
| CopyQueue.Buffer.Enqueue | hw4_2024/put_your_codes_here/queue.c:20-40 | writes behind the last element and leaves the count to the caller |
| CopyQueue.Buffer.Dequeue | hw4_2024/put_your_codes_here/queue.c:42-59 | returns the first element and leaves the count to the caller |
| CopyQueue.Buffer.Put | hw4_2024/put_your_codes_here/1801042624_main.c:155-157 | enqueue and count together append to a bounded sequence |
| CopyQueue.Buffer.Get | hw4_2024/put_your_codes_here/1801042624_main.c:216-218 | dequeue and count together remove the first element |
| TreeWalk.Walker.CopyAll | hw4_2024/put_your_codes_here/1801042624_main.c:61-172 | the recursion makes and queues what the specification of the walk says, in that order, and counts the directories and regular files of the tree |
| TreeWalk.WalkIsRendered | hw4_2024/put_your_codes_here/1801042624_main.c:96-170 | the walk is the walk on relative paths with the two roots in front |
| TreeWalk.TraceMembers | hw4_2024/put_your_codes_here/1801042624_main.c:96-170 | it makes exactly the directories and queues exactly the regular files of the tree, where only "." and ".." are no part of it |
| TreeWalk.EveryEntryIsWalked | hw4_2024/put_your_codes_here/1801042624_main.c:96-168 | every regular file of a directory but "." and "..", hidden or not, is queued under its name on both sides, and every directory is made and walked |
| TreeWalk.CountsAreEvents | hw4_2024/put_your_codes_here/1801042624_main.c:103-119 | one directory is counted per directory made, one regular file per file queued |
| TreeWalk.WalkAppend | hw4_2024/put_your_codes_here/1801042624_main.c:96-170 | entries are walked in the order they are read |
| TreeWalk.JoinAddsName | hw4_2024/put_your_codes_here/1801042624_main.c:107-129 | a path is the root and the names, a slash before each |
| TreeWalk.TraceOnce | hw4_2024/put_your_codes_here/1801042624_main.c:96-170 | each once |
| TreeWalk.DirectoriesFirst | hw4_2024/put_your_codes_here/1801042624_main.c:101-139 | every directory is made before anything below it |
| TreeWalk.JoinInjective | hw4_2024/put_your_codes_here/1801042624_main.c:107-129 | different relative paths never name the same file |
| TreeWalk.Mirrors | hw4_2024/put_your_codes_here/1801042624_main.c:61-172 | events and entries of the tree correspond, with the same relative path on both sides, one event per destination, parents first |
| CopyProtocol.StepInv | hw4_2024/put_your_codes_here/1801042624_main.c:175-246 | every step of the manager and of a worker keeps the order of the ring and the state of every file |
| CopyProtocol.RunInv | hw4_2024/put_your_codes_here/1801042624_main.c:175-246 | so does every run |
| CopyThreads.TestLeaves | hw4_2024/put_your_codes_here/1801042624_main.c:199 | at its loop test a worker leaves exactly when the flag is up and the ring is empty |
| CopyThreads.InsideTakes | hw4_2024/put_your_codes_here/1801042624_main.c:201-223 | inside it takes the first file if there is one, leaves if the ring is empty and the flag is up, and waits exactly otherwise |
| CopyThreads.CopyingReads | hw4_2024/put_your_codes_here/1801042624_main.c:229-239 | it can read any number of bytes from 1 to 1024 that the file still has, and is done exactly when none are left |
| CopyThreads.AddingStores | hw4_2024/put_your_codes_here/1801042624_main.c:229-231 | what it read is added to the total and extends the copy to that point of the file |
| CopyThreads.ManagerQueues | hw4_2024/put_your_codes_here/1801042624_main.c:122-185 | the manager queues the next file exactly when the ring has room, and raises the flag once, after the last |
| CopyTheorems.StepMeasure | hw4_2024/put_your_codes_here/1801042624_main.c:175-246 | every step lowers a measure of work left |
| CopyTheorems.EveryRunEnds | hw4_2024/put_your_codes_here/1801042624_main.c:175-246 | every run has at most four steps per file, two per byte, two per worker and one |
| CopyTheorems.Progress | hw4_2024/put_your_codes_here/1801042624_main.c:199-245 | with a worker and a ring of at least one place, a run that cannot go on is finished |
| CopyTheorems.FinishedCopied | hw4_2024/put_your_codes_here/1801042624_main.c:229-239 | once all workers have left, all files were dequeued in order and copied |
| CopyTheorems.ExactlyOnce | hw4_2024/put_your_codes_here/1801042624_main.c:199-223 | in every reachable state dequeued followed by ring is what was enqueued, without repetition; a worker that has left saw the flag and an empty ring |
| CopyTheorems.CopiesEverything | hw4_2024/put_your_codes_here/1801042624_main.c:175-246 | every complete run ends cleanly with each file copied once, byte for byte; with additions that do not overlap the total is the sum of the sizes |
| CopyRace.LoseByte | hw4_2024/put_your_codes_here/1801042624_main.c:229-230 | two workers that add at the same time can lose an addition |
| CopyRace.TotalExactly | hw4_2024/put_your_codes_here/1801042624_main.c:229-230 | the total is the sum of the sizes in every complete run if and only if there is one worker or at most one file that is not empty |
| TreeCopy.TreeIsCopied | hw4_2024/put_your_codes_here/1801042624_main.c:61-246 | walk and workers together: every regular file of the tree has exactly one copy, under the same relative path, with its bytes |
| Copier.Pool.constructor | hw4_2024/put_your_codes_here/queue.c:15-18 | the globals at the start |
| Copier.Pool.Produce | hw4_2024/put_your_codes_here/1801042624_main.c:122-166 | is the step Produce |
| Copier.Pool.Section | hw4_2024/put_your_codes_here/1801042624_main.c:201-223 | is Dequeue, or Leave, or no step while the worker has to wait |
| Copier.Pool.Read | hw4_2024/put_your_codes_here/1801042624_main.c:229-230 | is the step Read: a chunk of any size, and the load of the total |
| Copier.Pool.Store | hw4_2024/put_your_codes_here/1801042624_main.c:230-231 | is the step Store: the total and the destination |
| Copier.Pool.CopyLoop | hw4_2024/put_your_codes_here/1801042624_main.c:229-236 | however the reads are cut, an undisturbed loop copies the whole file and counts all of it |
| Lines.Parse | midterm/server.c:259-304 | a text is its whole lines and what follows the last newline |
| Lines.ParseUnlines | midterm/server.c:259-304 | lines that were put together read back |
| Lines.PrefixLines | midterm/server.c:118-134 | a prefix that ends in a newline consists of the first lines |
| LineFile.ReadsTheLines | midterm/server.c:276-295 | a text made up of lines and a rest: readF of line k gives the k-th line, and of any other number the rest, an unterminated last line |
| LineFile.PutsBetweenLines | midterm/server.c:109-200 | text goes in between the lines before n and the others, and at the top if n is neither a line nor the next one |
| LineFile.FindOffset | midterm/server.c:118-134 | the scan stops at the start of line n; at the start of the file when there is no such line |
| LineFile.CreateTempAndDelete | midterm/server.c:109-152 | cuts the file at that offset and spills the tail |
| LineFile.AppendToFile | midterm/server.c:154-171 | appends the text |
| LineFile.CopyTempAndDelete | midterm/server.c:173-200 | appends the spilled tail |
| LineFile.WriteTMiddle | midterm/server.c:322-356 | together: the text is put in at the offset and nothing else changes |
| LineFile.WriteT | midterm/server.c:358-400 | with the newline; line number -1 appends |
| LineFile.ReadF | midterm/server.c:259-304 | the line asked for, or what follows the last newline when there are not that many |
| LineFile.OffsetCuts | midterm/server.c:118-134 | the offset cuts the file between two lines of the list |
| LineFile.InsertRefinesLines | midterm/server.c:109-200 | for every file and every line number, inserting by bytes is inserting into the list of lines |
| LineFile.WriteThenRead | midterm/server.c:259-356 | afterwards line n reads back, earlier lines are unchanged, later ones have moved down by one, an unterminated last line included |
| LineFile.WriteReadsBackExactly | midterm/server.c:109-200 | line n reads back if and only if the file has at least n-1 whole lines |
| LineFile.AppendRefinesLines | midterm/server.c:375-385 | appending finishes an unterminated last line, and adds a line of its own if and only if there is none |
| Session.StepInv | midterm/server.c:913-999 | every step of the client and of the server keeps the turns |
| Session.OneFifoIsEnough | midterm/client.c:168-203 | over any number of commands, with transfers or without: one message in the FIFO at most, nobody reads its own message, the semaphores add up to at most one, the server reads the requests in order and the k-th response belongs to the k-th request |
| Session.StuckExactly | midterm/client.c:193-221 | the session stands still exactly when no fork can go on and the client reads for a response that is not written, or waits in a transfer for room or for data, or has exited |
| Session.TransferBalance | midterm/common.c:204-323 | every step of a transfer keeps the balance: who fetches, or will, are as many as what is ready and who sends, or will, less the surplus of the commands so far |
| Session.HandleBalance | midterm/server.c:924-990 | so do the server's branch for a request and its fork |
| Session.KeepsGoing | midterm/common.c:204-323 | as long as the commands keep the balance something can happen |
| Session.FindHang | midterm/common.c:204-323 | the first of the commands typed that does not keep it brings some run to a halt |
| Session.NeverHangsExactly | midterm/server.c:913-999 | the session never stands still if and only if, for all that may be typed: every command is answered, none makes the client exit, for want of a file to send or of one it can create, and the commands have at all times sent as much as they fetched, or one more |
| Session.CommandsThatHang | midterm/server.c:402-575 | with the server's commands, other than quit and killServer: the session never stands still if and only if there is no readF without a positive line number, no arcServer, no list of a folder that cannot be opened, no response that makes the client exit, and the balance of transfers stays within 0 and 1; file names, lines and echoed texts that start like a transfer, missing files and files that cannot be created all count |
| Session.MatchedCommandsThatHang | midterm/server.c:402-575 | if the files of every transfer can be opened and created, the folder can be listed and no other response starts like a transfer: exactly readF without a positive line number and arcServer |
| Session.DownloadHangs | midterm/server.c:519-528 | the download of a file that the server lacks or the client cannot create, as a first command, can bring the session to a halt |
| Session.EchoedTextHangs | midterm/server.c:358-375 | so can a writeT whose response, the user's own text when the file cannot be opened, starts with "download" |
| Session.SecondLostUploadHangs | midterm/common.c:297-306 | so can the second of two uploads that the server cannot keep |
| SessionCommands.WordsSpaced | midterm/common.c:51-91 | the words of a text hold no space and, with one space between them, are the text |
| SessionCommands.SpacedWords | midterm/common.c:51-91 | and words without spaces, put together, are told apart again |
| SessionCommands.Commands | midterm/server.c:577-640 | each command is recognised exactly by its first word and the number of words |
| SessionCommands.Unanswered | midterm/server.c:457-475 | no response exactly to readF with two words or a line number that is not positive, to arcServer and to killServer |
| SessionCommands.AnswersExactly | midterm/server.c:402-575 | and to a list of a folder that cannot be opened |
| SessionCommands.LineNumbers | midterm/server.c:465 | a printed line number is read as that number |
| SessionCommands.UploadStarts | midterm/client.c:205-207 | an upload: the client sends if it has the file and exits otherwise, a fork waits to receive if the server can create the file, and the shared memory is made |
| SessionCommands.UploadEnds | midterm/common.c:204-323 | if both can, one send and one receive bring both sides back to rest |
| SessionCommands.DownloadStarts | midterm/client.c:214-216 | a download: a fork sends if the server has the file, the client fetches if it can create the file and exits otherwise |
| SessionCommands.DownloadEnds | midterm/common.c:204-323 | if both can, one send and one receive bring both sides back to rest |
| SessionCommands.OtherCommandRuns | midterm/client.c:196-221 | any other answered command forks nothing; the client goes by the start of the response of list, readF and writeT, and is ready for the next command otherwise |
| SessionCommands.StartsAtRest | midterm/client.c:107-120 | a session starts at rest, with room for one transfer |
| SessionLink.Link.ReadReply | midterm/client.c:196-221 | is the step ReadReply: read, and go where the response leads |
| SessionLink.Link.ReadRequest | midterm/server.c:918-922 | is the step ReadRequest |
| SessionLink.Link.Handle | midterm/server.c:924-990 | is the step Handle: the branch for the command, and the fork |
| SessionLink.Link.Fork | midterm/server.c:956-990 | the fork that an upload or a download needs, and the shared memory that a sending fork makes |
| SessionLink.Link.Produce | midterm/common.c:254-256 | waits for room and posts what is ready |
| SessionLink.Link.Consume | midterm/common.c:306-314 | waits for what is ready and posts room |
| SessionLink.Link.ClientSends | midterm/client.c:205-212 | is the step ClientSends |
| SessionLink.Link.ClientFetches | midterm/client.c:214-221 | is the step ClientFetches |
| SessionLink.Link.ClientFails | midterm/common.c:274-278 | is the step ClientFails: there is no shared memory to open |
| SessionLink.Link.ForkSends | midterm/server.c:974-989 | is the step ForkSends |
| SessionLink.Link.ForkReceives | midterm/server.c:956-972 | is the step ForkReceives |
| SessionLink.Link.Serve | midterm/server.c:913-999 | one round of the server's loop replaces the request by its response, or by nothing; without a response it forks nothing |
| SessionLink.Link.Exchange | midterm/client.c:168-203 | one round of both loops: the client gets the reply to its own command, and is back where it was unless the reply starts a transfer; if there is none it stands still |
| Numerals.ReadBack | hw2_2024/common.c:57-76 | what was printed reads back, for every integer |
| Numerals.Int32Length | hw2_2024/common.c:11-43 | a 32-bit integer prints in at most eleven characters, so it fits a 32-character element |
| Numerals.NoLeadingZero | hw2_2024/common.c:16-28 | a number prints without zeros in front |
| Numerals.ReadsLoosely | hw2_2024/common.c:60-71 | a numeral is read after a blank and with a sign, up to the first other character; a text that starts with a letter is no number |
| Codec.ConvertIntegerToString | hw2_2024/common.c:11-43 | every number is followed by a delimiter; the empty array prints as one delimiter |
| Codec.CountHowManyElementsWillExtract | hw2_2024/common.c:166-179 | is the number of pieces that the splitter finds |
| Codec.SplitStringIntoArrayI | hw2_2024/common.c:86-114 | the pieces that end in a delimiter |
| Codec.SplitStringIntoArrayCustom | hw2_2024/common.c:116-164 | the pieces that end in a comma, and the last that ends in an exclamation mark |
| Codec.ConvertStringArrayToInteger | hw2_2024/common.c:45-55 | converts up to the first negative number and leaves zeros behind it |
| Codec.AddValuesInInteger | hw2_2024/hw2.c:18-24 | the sum |
| Codec.MultiplyValuesInInteger | hw2_2024/hw2.c:32-38 | the product |
| Codec.ParseFifo | hw2_2024/hw2.c:113-140 | count, split, convert and add |
| Codec.ParseSecondFifo | hw2_2024/hw2.c:59-111 | product plus sum, or -1 without a multiply word |
| Codec.SplitsCount | hw2_2024/hw2.c:66-75 | the number of commas is the number of pieces the second splitter stores, so its array fits |
| CodecTheorems.SplitUndoesPrint | hw2_2024/common.c:11-114 | splitting what was printed gives the numerals back |
| CodecTheorems.SplitsPieces | hw2_2024/common.c:86-114 | the pieces of any text are free of the delimiter and, with one after each, are the text up to its last delimiter |
| CodecTheorems.SumLaws | hw2_2024/hw2.c:18-24 | every number counts once in the sum, wherever it stands |
| CodecTheorems.ProductLaws | hw2_2024/hw2.c:32-38 | and once in the product, which is 1 for no numbers and 0 if there is a zero |
| CodecTheorems.EmptySum | hw2_2024/common.c:40-42 | the empty array prints as one delimiter, and its sum comes out as 1 |
| CodecTheorems.LastSumCounts | hw2_2024/common.c:127-138 | of several sums the last one counts |
| CodecTheorems.BadMessages | hw2_2024/hw2.c:77-94 | a message without the command word yields -1, and a piece without digits counts as 1 |
| CodecTheorems.SumRoundTrip | hw2_2024/hw2.c:113-140 | print, split, convert, add gives the sum of the numbers before the first negative one, so of all when none is negative |
| CodecTheorems.BothOrdersSplit | hw2_2024/common.c:116-164 | both orders of arrival split into the same pieces |
| CodecTheorems.OrderDoesNotMatter | hw2_2024/hw2.c:59-111 | either order gives product plus sum, for any numbers and any sum |
| CodecTheorems.ProductPlusSum | hw2_2024/hw2.c:59-140 | all processes together compute product plus sum |
| CodecTheorems.NineteenDigitsFit | hw2_2024/hw2.c:32-38 | with at most 19 digits the result fits a 64-bit long |
| CodecTheorems.ReadOneByOneCustom | hw2_2024/common.c:234-309 | the reader's loop: characters until both delimiters were seen and a NUL or no writer ends it |
| CodecTheorems.ReceivesBoth | hw2_2024/common.c:234-309 | with any pauses between the writers the reader gets both messages, in order |
| CodecTheorems.NulEnds | hw2_2024/common.c:260-297 | a null byte ends the message once both delimiters were seen; as long as one is missing the reader goes on |
| CodecTheorems.SecondChild | hw2_2024/common.c:234-309 | from bytes to result: either order and any pauses give product plus sum |
| Newton.NeverBelow | final/final_common.c:130-132 | after the first pass the square of the guess is at least the number |
| Newton.Quarters | final/final_common.c:130-132 | each further pass cuts the error by four or more |
| Newton.ErrorShrinks | final/final_common.c:130-132 | so the error shrinks geometrically |
| Newton.CustomSqrt | final/final_common.c:124-135 | terminates for every real, with a bound on the passes |
| Newton.RootIsClose | final/final_common.c:124-135 | the result squared is within 0.001 of the number; -1 for a negative number |
| Newton.SquareRoots | final/final_common.c:125-131 | from half the number by means: exactly 2 for 4, and 2.050625 / 2.05 for 1 |
| Newton.RootUnique | final/final_common.c:124-135 | there is one such result |
| Newton.CalculateDistance | final/final_common.c:137-141 | not negative, its square within 0.001 of the sum of the two squared differences, zero between equal points, positive between points farther apart than the tolerance |
| Newton.DistanceSymmetric | final/final_common.c:137-141 | the same in both directions |
| Parking.OwnerStepInv | hw3_2024/hw3.c:46-108 | every section of the owner keeps the rendezvous of both kinds of car |
| Parking.AttendantStepInv | hw3_2024/hw3.c:112-143 | so does every section of an attendant |
| Parking.Rendezvous | hw3_2024/hw3.c:46-143 | until the owner leaves: the two semaphores and the working attendant add up to one exactly while the owner waits for it; owner and attendant are never both at a counter, the attendant's last look at it for the log included; the attendant finds a free place; free places are capacity less parked plus departed; cars are parked in the order announced |
| Parking.AdmitsExactly | hw3_2024/hw3.c:51-105 | a car is announced exactly when fewer of its kind than eight or four stand on the lot, and sent away otherwise; one leaves exactly when one stands there |
| Parking.FillsUp | hw3_2024/hw3.c:51-105 | the lot can fill up to eight or four, the next car is sent away, and after one has left the next is admitted |
| Parking.StillExactly | hw3_2024/hw3.c:46-143 | nothing can happen exactly when the owner waits for an attendant that left at the interrupt and the other attendant has nothing to do |
| Parking.StandsStill | hw3_2024/hw3.c:46-143 | that can come about: a car is announced and the interrupt comes before the attendants look at the flag |
| Parking.NeverStillWhileRunning | hw3_2024/hw3.c:46-143 | without the interrupt the system never stands still |
| Parking.AllLeave | hw3_2024/hw3.c:107-108 | once the owner has left its loop, its two posts get both attendants home |
| ParkingLot.Garage.constructor | hw3_2024/hw3.c:22-25 | the globals at the start |
| ParkingLot.Garage.TestRun | hw3_2024/hw3.c:46-49 | is the step TestRun, with the two posts after the loop |
| ParkingLot.Garage.Arrive | hw3_2024/hw3.c:51-83 | is the step Arrive |
| ParkingLot.Garage.Depart | hw3_2024/hw3.c:85-105 | is the step Depart |
| ParkingLot.Garage.Park | hw3_2024/hw3.c:120-121 | is the step Park |

The methods of `Shop.Server`, `Copier.Pool`, `SessionLink.Link` and
`ParkingLot.Garage` without a row of their own assign one or two variables; each is
the step of the state machine with the same name, at these places:
`final/server.c` lines 239-251, 299-302, 418-448, 485-512, 538-545, 557-580, 582-591,
636-646; `hw4_2024/put_your_codes_here/1801042624_main.c` lines 182-185, 199, 229-239;
`midterm/client.c` lines 171-194; `midterm/server.c` lines 916 and 996;
`hw3_2024/hw3.c` lines 27-38, 59, 84-87, 117-125.

## Left out

PideShop:

- The `cancelled` shutdown, back-to-back sessions and late couriers of an earlier session.
- Sockets, log files, sleeps, the busy-wait of `pseudo_inverse` and the creation of
  timers; a timer is a thread that is enabled once it is started. The interval is
  `sleep_time / sleep_time`, which divides by zero when `sleep_time` is zero; not modelled.
- Condition variables: a wait is a step enabled by the guard around it, so lost and
  spurious wake-ups are not modelled. The one wake-up that is modelled is the
  broadcast after a dequeue from the oven, because a cook that wakes up gives its
  apparatus back once more.
- Between two dequeues a courier keeps the mutex of the prepared queue; the model lets
  others in between, which allows more runs than the code.
- A courier's own `received` counter and `totalReceived` are incremented in one step.
- Cancellation models what touches the apparatus only; whether the oven is full or a
  queue is empty is left open, and the flag is not lowered again.

Copier:

- Failing opens, reads, writes and directory creations (a failing open returns with
  the mutex held), SIGINT, path lengths and file modes. Names in a directory are
  distinct and hold no slash. The destination's top directory exists.

Midterm:

- Failing system calls other than the opening and creating of files and of the folder
  to list; file locks, and buffer sizes. A file that does not exist is read as nothing
  and written as an empty one.
- A readF with two words as a first command reads a third word that was never written;
  the model reads zero there, as the code does in later rounds.
- The archive and kill commands and quit end a session or do not answer it; what they
  do besides is not modelled. The tables of clients.
- Of the transfers: the contents of the shared memory, so that a download may be handed
  the data of an upload still on its way; several clients at a time, which share the
  memory and its semaphores; semaphores left by an earlier session. Whoever receives
  sleeps four seconds first and is taken to find the memory made by then if anybody
  makes it.
- Session.CommandsThatHang: the responses, and which files and folders can be opened or
  created, are arbitrary functions of the commands heard so far.

Codec:

- Codec.ParseSecondFifo: needs a comma in its buffer and at most 32 factors, as the original indexes outside its arrays without.
- Integer overflow; integers are unbounded, and `NineteenDigitsFit` says when the
  result fits. Element, sum and message buffers of fixed size (32, 7 and 12 characters).

Square root:

- Newton.CustomSqrt: works on reals; rounding of floats is not modelled.

Parking:

- The owner's leaving its loop ends the claims: it posts both semaphores once more,
  and an attendant then may park a car that did not come; only that everybody leaves is
  proved of it.
- A wait that a signal interrupts; which kind of car comes or leaves is any choice.

Elsewhere: hw1, hw2, hw3, hw4, hw5, hw6, hw1_2024 are system-call wrappers, text
interfaces or unfinished servers, and would add easy members only.
