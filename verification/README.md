# Models and proofs for the kernel, its process manager, its image tools and its loader

These Dafny files model the parts of the repository that have laws worth
proving, and prove them. `dafny verify dfyconfig.toml` checks all of them.

**The message system** (`process.c`, `syscall.c`, `clock.c`). Processes exchange
messages by rendezvous: a process that sends blocks until its destination
receives, and waits meanwhile in a queue that is threaded through the slots of
the process table. `IpcState` gives the state and the effect of each call as
functions on values, with one sequence per queue. `KernelTable` has the table
itself: an array of slots with the heads and links of all queues, and the methods
of `process.c` that walk and change them in place, each proved to do what the
function of the same name does. `IpcGraph` is the graph of blocked sends that the
deadlock test walks, `IpcSchedule` the round-robin scheduler, `IpcSteps` the proof
that every call keeps the invariant: queues match status bits, the send graph has
no cycle, no process waits for a sender that is already blocked on it. The asserts
of the code stand in the methods as asserts. `Delivery` logs every message over a
whole run, with what each receiver had asked for and where, and proves what the log
says. Everything holds for any number of slots.

**The process manager on top of it** (`mm/mm.c`, `systask.c`, the stubs in
`syscall.c`). `System` is a state machine of all processes together: clients that
call the stubs, the system task and the process manager in their loops, and the
clock. The process manager stops wherever what it has written into the table shows
to others: between the copy of a record and the copy of the memory, before and
after each report, between any two turns of the loop over the orphans. The clock
can take the processor from it there, and the child, the parent or anybody else
runs. `SystemInv` says how client and server stand towards each other;
`SystemCalls`, `SystemManager` and `SystemSafety` prove that every step keeps it;
`SystemStory` follows each slot through its life with a small automaton;
`SystemFamily` is about parents, children and zombies; `SystemRuns` and
`SystemTheorems` put this together for whole runs. `SystemFork` says what a caller
of `fork` learns when the table is full. `SystemDelivery` shows that every step of
the system is a step of the kernel that `Delivery` logs, and `SystemReports` that
over a run the requests, answers, reports and births of the story are the messages
of the log, with their contents. `SystemReplies` follows the last request of everybody
and proves that its answer comes to the address of the request, from the server that
was asked; `SystemAnswers` says what the servers' messages hold in terms of the
requests and of the clock. `SystemProgress` bounds how long things take: within how
many turns of the scheduler a process takes its next step, a request is answered and
the manager is back at the top of its loop, provided that a process which has been
selected takes a step before the clock takes the processor from it.
`ProcessManager` has the manager's loops over the linked table, in place.

`do_exit`, `do_wait` and `do_execl` do not do what they are evidently meant to do:
line 233 of `mm/mm.c` marks the parent where the child has ended, line 240 compares
where it should assign, line 261 takes freed slots for children, and line 321 sets the
program counter of the caller wherever it stands, even if it has not issued the RECEIVE
of its request yet. `System` has both variants, `AsWritten` and `Intended`; in the
intended one such a caller issues its RECEIVE before it goes on in the new program, and
an exec that finds its caller receiving is the same in both. For the intended variant,
`Good` (protocol, story and family together) holds in every state of every run. For the
code as written, `SystemAsWritten.StepAsWritten` gives the exact condition on the table
under which a step leads from a good state to a good state, and
`SystemAsWritten.RunsAsWritten` that a run is good exactly as long as its steps meet it.
`SystemExec` says what an exec does to its caller, and what follows when it comes too
early: the manager never takes a step again, and the caller's next request to it is the
deadlock panic. `SystemExamples` has runs of the code as written from boot that end in
harm, one for each of these lines but 240, and one that fills the table.

**The image writer and the reader in the kernel** (`others/genromfs.c`,
`fs/romfs.c`). `RomfsLayout` has the two passes of the writer over a directory
tree, the one that gives out offsets and the one that emits bytes, and proves that
they agree. `RomfsWriter` is the writer itself with its buffers, in place, and
the image it produces. `RomfsReader` is the lookup loop. `RomfsRoundTrip` proves
that the reader finds what the writer wrote. `RomfsTree` reads the image the way the
format says, without the writer, and finds the whole tree. `RomfsBytes` has words,
padding and checksums; `Bits` has bit operations on numbers, for the alignment
masks and for the map of the allocator. The format is the one of the Linux kernel
document "ROMFS - ROM File System".

**The FAT12 loader** (`kernel_loader/kernel_loader.c`) is `Fat12`: entries as in
the section "FAT Data Structure" of the Microsoft FAT specification, read through a
window of two sectors, and a chain of clusters copied to memory.

**The block allocator** (`mm/mm.c`) is `Allocator`; **the number printer and the
formatter** (`io/k_stdio.c`) are `Printing`.

Where the code cannot meet what it is for, the exact condition is proved:
`RomfsRoundTrip.StartAgrees` (volume names and the alignment of the first entry),
`RomfsRoundTrip.DataAddress` (file names), `Fat12.StopsAtTheEnd` (end marks),
`Allocator.ZeroMeansFull` (memory sizes), `SystemAsWritten.StepAsWritten` and
`SystemAsWritten.RunsAsWritten` (exits, waits and execs), `SystemFork.ForkFailureShows`
(fork on a full table).

How to read the models: status words are records of bits. Pointers to slots are
`Link` values, pointers to messages are numbers with 0 for null. Names that carry a
prime or the letters `s`, `t` are the states before and after. `Ghost` arguments
only help the proofs: `KernelTable.Kernel.Schedule` takes a slot that is runnable,
as the source relies on the terminal task to be, and `RomfsReader.Namei` takes the
list of headers it will come through, which
`RomfsRoundTrip.ReaderFollowsSiblings` supplies for every written image.

## Model

| member | source | states |
|---|---|---|
| `IpcGraph.ReachesStep` | process.c:531-547 | one turn of the deadlock walk: `dest` reaches `src` through blocked sends exactly when it is blocked and its own destination is `src` or reaches it |
| `IpcGraph.AcyclicIffRanked` | process.c:526-553 | the graph of blocked sends has no cycle exactly when its slots can be ranked so that every blocked send goes down: the measure that makes the walk end |
| `IpcGraph.RankedIsAcyclic` | process.c:526-553 | a rank that every blocked send lowers rules out every cycle, of any length |
| `IpcGraph.FewerSends` | process.c:769-772 | releasing blocked senders keeps the send graph acyclic |
| `IpcGraph.OneMoreSend` | process.c:616-647 | a new blocked send keeps the graph acyclic whenever the deadlock test has found no chain from the destination back to the sender |
| `IpcSchedule.NextReadyIsNext` | process.c:560-581 | with some slot runnable the scheduler picks the first runnable one in cyclic order and passes over none |
| `IpcSchedule.PickedWithin` | process.c:560-581 | a slot that stays runnable is picked within as many calls as it lies ahead, however the other slots change in between |
| `IpcSchedule.BoundedWaiting` | process.c:560-581 | a slot that stays runnable is picked within N calls of the scheduler; for runs of the system see RunnableSteps |
| `IpcSteps.WithoutAt` | process.c:751-764 | taking a queued sender out leaves those before it in place and moves those behind it up by one |
| `IpcSteps.StampKeepsInv` | syscall.c:105-108 | stamping the caller's number into its message keeps the invariant |
| `IpcSteps.SendDeliversKeepsInv` | process.c:621-641 | the branch of the send that finds the destination waiting keeps queues, acyclicity and no missed rendezvous |
| `IpcSteps.SendBlocksKeepsInv` | process.c:642-669 | the branch of the send that queues the sender keeps queues, acyclicity and no missed rendezvous |
| `IpcSteps.SendKeepsInv` | process.c:609-671 | every send that passes the deadlock test keeps the invariant |
| `IpcSteps.PartnerSends` | process.c:698-749 | the sender that a receive picks is blocked in a send to the receiver and is one it accepts; when none is picked no sender matches |
| `IpcSteps.ReceiveTakesKeepsInv` | process.c:751-773 | taking a queued message, from the head or from the middle of the queue, keeps the invariant |
| `IpcSteps.ReceiveBlocksKeepsInv` | process.c:774-789 | waiting for a message keeps the invariant, in particular no sender that matches is blocked already |
| `IpcSteps.ReceiveKeepsInv` | process.c:698-791 | every receive keeps the invariant |
| `IpcSteps.TickKeepsInv` | clock.c:15-36 | a clock tick keeps the invariant and leaves a runnable process selected |
| `KernelTable.AppendThreads` | process.c:649-661 | hooking a sender behind the last slot of one linked queue, or making it the head, appends it to that queue and changes no other |
| `KernelTable.RemoveThreads` | process.c:751-764 | linking past a slot removes it from its queue and changes no other queue |
| `KernelTable.ThreadsKept` | process.c:649-661 | a queue whose slots keep their links is still the same sequence |
| `KernelTable.QueuesOwnSenders` | process.c:649-661 | in a sound state no process is in two queues, none is twice in one, and whoever is in a queue is blocked in a send to its owner |
| `KernelTable.Kernel.constructor` | process.c:506-514 | the table set up at boot satisfies the whole invariant, for any number of slots |
| `KernelTable.Kernel.Deadlock` | process.c:526-553 | the walk ends and answers 1 exactly when a chain of blocked sends leads from `dest` to `src` |
| `KernelTable.Kernel.PrintCycle` | process.c:535-544 | the printing loop ends, and what it names is a chain of blocked sends from `dest` to `src` |
| `KernelTable.Kernel.Schedule` | process.c:560-581 | the loop ends and leaves the next runnable slot selected |
| `KernelTable.Kernel.MsgSend` | process.c:609-671 | on the linked table: panics exactly on a deadlock, otherwise has the effect of the abstract send; every assert of the code holds |
| `KernelTable.Kernel.HandOver` | process.c:621-641 | the delivery branch, field by field, with its asserts |
| `KernelTable.Kernel.BlockInSend` | process.c:642-669 | the blocking branch, field by field, with its asserts |
| `KernelTable.Kernel.Enqueue` | process.c:649-661 | the walk to the end of the links appends the sender to the destination's queue and to no other |
| `KernelTable.Kernel.MsgReceive` | process.c:698-791 | on the linked table: has the effect of the abstract receive from a process or from ANY; every assert of the code holds; that the message ends up at the address asked for is Delivery.RunKeepsLog and SystemReplies.AnswersArrive |
| `KernelTable.Kernel.TakeFrom` | process.c:751-773 | the branch that found a sender, field by field, with its asserts |
| `KernelTable.Kernel.BlockInReceive` | process.c:774-789 | the branch that found none, field by field, with its asserts; that the wait names the caller's buffer and partner is Delivery.RunKeepsLog |
| `KernelTable.Kernel.FindSender` | process.c:724-736 | the walk finds the named sender's place in the queue and the slot before it |
| `KernelTable.Kernel.Dequeue` | process.c:753-764 | unhooking from the head or from the middle removes exactly that sender |
| `KernelTable.Kernel.SysSendrec` | syscall.c:100-129 | the system call as a whole on the linked table: stamp, then the send or receive the code names, any other code panics |
| `KernelTable.Kernel.CopyMessage` | process.c:626-626 | one message value goes from the sender's buffer to the receiver's and nothing else changes |
| `KernelTable.Kernel.ClockHandler` | clock.c:15-36 | the clock reschedules exactly when it did not interrupt the kernel |
| `Delivery.EnabledKeepsInv` | syscall.c:100-129 | every event of a kernel run keeps the invariant |
| `Delivery.StepKeepsLog` | syscall.c:100-129 | every event keeps the log in order: authentic, once, nothing lost, queues by age, and whoever waits waits for what its last RECEIVE asked for |
| `Delivery.RunKeepsLog` | process.c:609-791 | over every run each message is copied at most once, to its destination, into the buffer its last RECEIVE named and only if it came from whom that asked for, with the content and source it had when sent, and is pending with its blocked sender exactly until then |
| `Delivery.AnyTakesOldest` | process.c:698-716 | a receive from ANY takes the message that was sent first of all that wait for the receiver |
| `Delivery.PlaceNeverGrows` | process.c:751-764 | the place of a queued sender never grows, whatever the next event is |
| `Delivery.OrderKept` | process.c:649-661 | a new message gets a later number than everything already queued |
| `Delivery.OrderWithout` | process.c:724-764 | taking a message out of the middle keeps the others in the order of sending |
| `System.FirstFree` | mm/mm.c:129-131 | the slot found is free and every earlier one is not; N when there is none |
| `System.FirstZombie` | mm/mm.c:259-270 | the slot found is a child that has ended and no earlier one is; N when there is none |
| `ProcessManager.FindFree` | mm/mm.c:126-131 | the search loop finds the first free slot |
| `ProcessManager.CopySlot` | mm/mm.c:144-146 | copying the whole slot, links included, into a free one keeps every linked queue |
| `ProcessManager.DoFork` | mm/mm.c:124-146 | fork on the linked table up to the copied record, or the reply that there is no free slot |
| `ProcessManager.FinishFork` | mm/mm.c:164-180 | the child gets the parent's memory and the reply its number |
| `ProcessManager.ScanSlot` | mm/mm.c:238-248 | one turn of the loop over the orphans, as written or as meant, on the linked table |
| `ProcessManager.ScanSlots` | mm/mm.c:236-249 | the loop over the orphans up to its next report or its end |
| `ProcessManager.DoExit` | mm/mm.c:208-234 | exit on the linked table, as written or as meant, up to its loop |
| `ProcessManager.Report` | mm/mm.c:197-201 | the report holds the child's number and status and goes to the parent in its record |
| `ProcessManager.FreeSlot` | mm/mm.c:203-203 | the reported slot becomes free |
| `ProcessManager.DoWait` | mm/mm.c:252-285 | wait on the linked table: the loop stops at the first zombie; without one it has counted children, and waits or answers that there is none |
| `SystemCalls.ServerAnswers` | process.c:609-671 | a server's reply keeps clients and servers in step, and its client is neither blocked in a send nor waiting for anybody else |
| `SystemCalls.ClientAsks` | syscall.c:22-71 | a client's request keeps clients and servers in step, whether the server waits or not |
| `SystemCalls.ClientAwaits` | process.c:804-806 | the RECEIVE half of a client's call keeps clients and servers in step, whether the reply is there or not |
| `SystemCalls.ServerListens` | systask.c:13-18 | a server's receive from ANY keeps clients and servers in step |
| `SystemCalls.SendersAreClients` | systask.c:40-46 | only a client between the halves of its call is ever queued at a server, with a request the server can handle |
| `SystemManager.EditKeepsInv` | mm/mm.c:124-285 | what the manager writes into the table keeps the kernel's invariant when blocked senders stay and nobody starts to accept a queued message |
| `SystemManager.ForkKeepsInv` | mm/mm.c:142-146 | copying the parent's record into a free slot keeps every invariant of the message system |
| `SystemManager.ForkSettles` | mm/mm.c:124-146 | once the record is copied the child can run, and the manager owes exactly the child and the parent an answer |
| `SystemManager.CopySettles` | mm/mm.c:164-180 | copying the memory of the parent to a child that can already run keeps the protocol |
| `SystemManager.ReplySettles` | process.c:609-671 | whatever client the manager owes an answer, giving it keeps the protocol |
| `SystemManager.NobodySendsTo` | mm/mm.c:144-146 | nobody is queued at a free slot or at a client whose request the manager holds |
| `SystemManager.CleanupSettles` | mm/mm.c:197-201 | reporting a zombie to its parent keeps the protocol: the parent is held by the manager |
| `SystemManager.ScanSettles` | mm/mm.c:238-248 | every turn of the loop over the orphans keeps the protocol, others running between any two |
| `SystemManager.ExitTells` | mm/mm.c:225-230 | ending a process whose parent waits keeps the protocol |
| `SystemManager.ExitHangs` | mm/mm.c:233-233 | ending a process whose parent does not wait leaves a zombie and keeps the protocol |
| `SystemManager.WaitSettles` | mm/mm.c:252-285 | wait keeps the protocol in each of its three outcomes |
| `SystemManager.LoadSettles` | mm/mm.c:301-318 | loading a program into the caller's memory keeps the protocol, whether the caller receives yet or not |
| `SystemManager.EnterSettles` | mm/mm.c:320-321 | letting the caller go on in the program behind its RECEIVE, and answering it, keeps the protocol |
| `SystemManager.ManageSettles` | systask.c:44-87 | whatever request arrives, handling it as meant keeps the protocol up to the next point where others can run; for exec that is the loaded program |
| `SystemManager.RestSettles` | mm/mm.c:164-321 | each later piece of the manager's work on a request keeps the protocol, wherever the clock has struck before it |
| `SystemManager.FreeSettles` | mm/mm.c:203-203 | freeing the slot of a reported child keeps the protocol |
| `SystemSafety.AskIsSafe` | process.c:614-619 | a client's request never meets the deadlock panic, and the server it finds waiting has no other status bit |
| `SystemSafety.AnswerIsSafe` | process.c:614-619 | a server's reply never meets the deadlock panic |
| `SystemSafety.StepIsOk` | systask.c:9-87 | every step of every process, with exit, wait and exec as meant, meets the asserts of the kernel, meets no deadlock and keeps the invariant of the system |
| `SystemStory.StageAfter` | systask.c:40-87 | the stage of a slot follows its story one event at a time |
| `SystemStory.CleanupTells` | mm/mm.c:197-201 | in the story, only a process that has ended is reported, with the status it ended with, to the parent it has then |
| `SystemStory.ScanTells` | mm/mm.c:238-248 | every turn of the loop over the orphans agrees with the story of every slot |
| `SystemFamily.WaitKeepsFamily` | mm/mm.c:252-285 | wait leaves nobody waiting without a living child, and no zombie behind a waiting parent |
| `SystemFamily.ExitTellsKeepsFamily` | mm/mm.c:225-230 | the same for an exit whose parent waits |
| `SystemFamily.ExitHangsKeepsFamily` | mm/mm.c:231-234 | the same for an exit whose parent does not wait |
| `SystemFamily.ForkKeepsFamily` | mm/mm.c:129-146 | the same for fork: everybody's parent is alive |
| `SystemFamily.ScanKeepsFamily` | mm/mm.c:238-248 | the slots the loop has passed no longer name the process that ends, those ahead may; at its end none does, and no zombie of INIT is left while INIT waits |
| `SystemRuns.StepKeepsGood` | systask.c:9-87 | every step, each piece of the manager's work as meant included, keeps protocol, story and family and meets every assert |
| `SystemTheorems.BootIsGood` | process.c:506-514 | the state at boot satisfies protocol, story and family |
| `SystemTheorems.RunStaysGood` | systask.c:9-87 | every state of every run with exit, wait and exec as meant satisfies protocol, story and family |
| `SystemTheorems.RunIsSafe` | process.c:614-669 | in every state of every such run, the clock striking anywhere between the manager's changes of the table, the next call meets the asserts and the deadlock panic is not reached |
| `SystemTheorems.LoopsReadSteady` | mm/mm.c:126-270 | while the manager is interrupted nobody changes what its loops read: parents, ended, free and waiting bits, exit statuses |
| `SystemTheorems.RepliesReachAskers` | process.c:793-807 | in a good state a server is blocked in a reply only to a client that is between the SEND and the RECEIVE of a request to that very server |
| `SystemTheorems.StoriesAreLegal` | mm/mm.c:195-285 | over every run with exit, wait and exec as meant the events of each slot come in a legal order: asked before answered, answered by the server that was asked, ended before reported, reported with its own status to its present parent, reported before freed, freed before born again |
| `SystemTheorems.LegalStoriesBalance` | systask.c:13-87 | in a legal story every request is answered once or still open or its process has ended, and every end is reported once or still to be reported |
| `SystemTheorems.FreeSlotsAreReported` | mm/mm.c:195-205 | in every such run, whenever a slot is free, every process that ended in it has been reported exactly once and every request made in it has been answered or ended with it |
| `SystemTheorems.WaitIsExact` | mm/mm.c:252-285 | wait goes on to report a zombie exactly when a child has ended, waits exactly when there are only living children, and answers NO_TASK exactly when there is no child |
| `SystemTheorems.ReportIsExact` | mm/mm.c:195-201 | on each way to a report, from an exit, from the loop over orphans or from a wait: the message goes to the living parent the child has then, which waits for it, and holds the child's own number and the status it ended with |
| `SystemTheorems.ForkIsExact` | mm/mm.c:129-146 | in the fields modelled the child's record is its parent's but for the parent field, in a slot that was free |
| `SystemTheorems.HalfCopiedChild` | mm/mm.c:144-144 | between the copy of the status word and of the fields behind it the child can be selected exactly when its parent does not receive yet |
| `SystemTheorems.UnfinishedChildWaits` | mm/mm.c:144-188 | a child the clock lets run before its memory is copied can only issue the receive its parent was about to issue, and then waits |
| `SystemTheorems.ForkAnswers` | mm/mm.c:164-192 | step by step: the memory is the parent's, the child is answered 0, the parent the number of a slot that is its child; over whole runs the two answers are BirthsAreAnswered |
| `SystemTheorems.ForkWithoutSlot` | mm/mm.c:138-139 | without a free slot nothing in the table changes and -1 goes into RETVAL, but the stub returns PID, which is what the caller's own request held there |
| `SystemFork.SuccessGivesSlots` | syscall.c:38-46 | the values fork returns on success are exactly 0 and the numbers of the slots that are not filled at the start |
| `SystemFork.ForkFailureShows` | syscall.c:38-46 | on a full table the caller can tell the failure from every success exactly when the PID field of its request was neither 0 nor the number of such a slot; full tables are FullTableOccurs and ForkOnFullTable |
| `SystemFork.FullTableOccurs` | mm/mm.c:129-139 | for every size of the table and every number in the request there is a good state in which INIT forks and no slot is free |
| `SystemExamples.ForkOnFullTable` | mm/mm.c:129-139 | a run from boot into such a state, and the stub gives INIT back whatever number its request held |
| `SystemAsWritten.ExitAsWritten` | mm/mm.c:225-234 | exit as written does what is meant exactly when the parent waits; otherwise it makes the parent unrunnable, leaves no zombie and breaks the invariant |
| `SystemAsWritten.ScanAsWritten` | mm/mm.c:238-248 | a turn of the loop as written does what is meant exactly when the slot is no child, and keeps the invariant exactly when it is no child or free |
| `SystemAsWritten.WaitAsWritten` | mm/mm.c:259-284 | wait as written does what is meant exactly when the caller has a child or no slot names it as parent; otherwise it waits for a child that does not exist, against the invariant |
| `SystemAsWritten.ExecAsWritten` | mm/mm.c:320-321 | exec as written does what is meant, and keeps the invariant, exactly when its caller receives; otherwise the caller runs in the new program while the manager is blocked in a send to it |
| `SystemAsWritten.StepAsWritten` | mm/mm.c:195-321 | a step as written from a good state leads to a good state exactly when it stays on course, a condition on the table before the step with a clause each for exit, wait, the loop over orphans and exec; then its call meets every assert |
| `SystemAsWritten.RunsAsWritten` | mm/mm.c:195-321 | the states of a run of the code as written are good up to any point exactly when its steps up to there stay on course |
| `SystemAsWritten.OnCourseRunsAreSafe` | process.c:609-791 | while such a run stays on course every call it makes meets every assert and no deadlock |
| `SystemExec.ExecIsExact` | mm/mm.c:313-321 | an exec that finds its caller receiving: the caller runs in the loaded memory, its answer in the buffer it waited with, and the manager goes on |
| `SystemExec.AskPanics` | process.c:614-619 | whatever the caller of an exec that did not asks of the manager next meets the deadlock test and the panic |
| `SystemExec.StuckStays` | process.c:609-791 | short of a call that fails, no step of anybody releases the manager from its send to such a caller |
| `SystemExec.ExecEndsManager` | mm/mm.c:320-321 | in every run as written, once an exec has found its caller outside its RECEIVE the manager takes no step any more, as long as no call fails |
| `SystemExamples.ExitFreezesParent` | mm/mm.c:233-233 | a run from boot, as written: INIT forks, the child exits, and INIT is stopped with no zombie left |
| `SystemExamples.WaitHangs` | mm/mm.c:261-275 | a run from boot, as written and on course up to there: INIT forks, waits, is told of the end of its child, waits again and hangs on the freed slot |
| `SystemExamples.ExecPanics` | mm/mm.c:320-321 | a run from boot, as written and on course up to there: INIT asks for a program, the clock strikes before its RECEIVE, and every request of INIT to the manager then meets the panic |
| `SystemDelivery.PrepareSpares` | mm/mm.c:124-285 | between two system calls no process, the manager included, touches what the kernel needs of a blocked sender |
| `SystemDelivery.StepKeepsLog` | syscall.c:100-129 | every step of the system is events of the kernel, so it keeps the log of its messages in order |
| `SystemDelivery.PrepareTellsCall` | systask.c:9-87 | the story gains an answer for every send of a server and a request for every send of a client and no others; a report comes with the message that carries its number and status |
| `SystemReports.RunKeepsLog` | systask.c:9-87 | in every state of every run with exit, wait and exec as meant the log is in order, and the sends, reports and births of the story are what its messages say |
| `SystemReports.SendIsLogged` | systask.c:9-87 | each send in the story is the message of the log whose number is the count of the sends before it, from and to the processes the story names |
| `SystemReports.CountsAgree` | systask.c:9-87 | log and story agree on the number of requests and answers between each client and each server |
| `SystemReports.AnswersAreAsked` | systask.c:13-87 | a legal story has no more answers from a server than requests to it, counting for a child the fork that made it |
| `SystemReports.RepliesAreDelivered` | systask.c:9-87 | over every such run the replies sent by a server to a client are at most the requests of that client to that server, and each arrives at most once, at that client, with the content and source it was sent with |
| `SystemReports.ReportsAreMessages` | mm/mm.c:195-205 | over every run each report of the story is one message of the log, a different one each: from the manager to the parent the child had then, holding the child's number and the status it ended with |
| `SystemReports.BirthsAreAnswered` | mm/mm.c:144-192 | over every run, for each birth the first answer of the manager to the parent after it is a message that holds the child's number and RETVAL 0, and the first one to the child a message that holds 0 and RETVAL 0; until then the manager is at it |
| `SystemReplies.RunKeepsAsks` | syscall.c:20-71 | in every state of every run everybody is in the call its last request began: blocked with that request unchanged, about to receive, or waiting at its address for the server it asked; and a request a server holds is the last one of its client, a child starting in its parent's |
| `SystemReplies.AnswersArrive` | process.c:621-641 | over every run, whenever a message arrives at a client it is from the server of the client's last request, stands at the address of that request with the content it was sent with, and the client goes on |
| `SystemReplies.AnsweredGoOn` | process.c:802-806 | over every run, a client inside a call goes on only in the step in which the answer to its last request arrives at the address of that request |
| `SystemReplies.AnswerStays` | process.c:802-806 | until its own next step a client that goes on finds its memory as it was |
| `SystemAnswers.SysAnswerHolds` | systask.c:21-26 | the system task sends the request back to the client whose it is, with the ticks in RETVAL |
| `SystemAnswers.TicksAreCounted` | clock.c:15-17 | over every run each message of the system task has in RETVAL how often the clock had struck, in 32 bits, when it was sent |
| `SystemAnswers.TicksReturn` | syscall.c:22-29 | over every run, what `get_ticks` finds in RETVAL at the address of its request is the number of clock ticks when the system task answered |
| `SystemAnswers.ExitsAreAsked` | systask.c:55-60 | over every run a process ends with the status of its own last request, which asked the manager for exit |
| `SystemAnswers.ManagerMessage` | systask.c:80-85 | every message of the manager, field by field: -1 in the request for a fork without a slot, NO_TASK for a wait without children, 0 for a child, its number for the parent, number and status for a report, the result in the request for an exec |
| `SystemAnswers.ProgramIsLoaded` | mm/mm.c:310-318 | an exec puts the program into its caller's memory and changes nothing else |
| `SystemProgress.RunGivesStretch` | process.c:506-514 | from any of its states on, a run from boot is a stretch of the kind the results on progress are about |
| `SystemProgress.RunnableSteps` | process.c:560-581 | in every stretch of a run a process that stays runnable takes a step of its own within as many turns of the scheduler as the table has slots |
| `SystemProgress.BlockedStays` | process.c:642-669 | a server blocked in its reply stays so until the client's next step, which takes the reply |
| `SystemProgress.ServerSteps` | systask.c:9-87 | a server that is not listening, blocked in a reply or not, takes its next step within 2(N+1) turns of the scheduler |
| `SystemProgress.SysAnswers` | systask.c:17-26 | a client whose request the system task has taken is answered within N turns; what the answer holds is TicksAreCounted |
| `SystemProgress.StepsGoDown` | mm/mm.c:124-321 | every step of the process manager lowers what is left of its work, the loop over the orphans included |
| `SystemProgress.ManagerReturns` | systask.c:42-87 | from wherever it is, the process manager is at the top of its loop again within a number of turns that depends on N only |
| `SystemProgress.RequestIsResolved` | systask.c:44-84 | a client whose request the process manager has taken is answered, has ended or is told to wait for a child within 8(N+1) turns |
| `RomfsBytes.ValueOfBytes` | others/genromfs.c:315-318 | writing a number big-endian and reading it back gives the number |
| `RomfsBytes.Checksum` | others/genromfs.c:217-229 | the loop adds up the big-endian words modulo 2^32 |
| `RomfsBytes.KnownSum` | others/genromfs.c:217-229 | two sums of words, the first byte of a word the most significant, one of them past 32 bits |
| `RomfsBytes.FixedSumIsZero` | others/genromfs.c:231-235 | after the fix the covered words add up to zero |
| `RomfsBytes.Summed` | others/genromfs.c:297-299 | a header with its checksum adds up to zero and differs in the checksum field only |
| `RomfsLayout.PassesAgree` | others/genromfs.c:527-683 | the bytes the second pass writes for a tree are exactly the space the first pass reserved |
| `RomfsLayout.PlaceIsConsecutive` | others/genromfs.c:550-676 | every node's offset follows from the space of everything before it |
| `RomfsLayout.EmittedAtOffsets` | others/genromfs.c:310-398 | every node's header starts at the offset the first pass gave it |
| `RomfsLayout.PadAligns` | others/genromfs.c:513-525 | padding puts the data of a regular file, and the header of anything else, on a multiple of its alignment, and every header on a multiple of 16 |
| `RomfsLayout.MaskedPadIsPad` | others/genromfs.c:513-525 | for every power of two, the padding computed by masking with the alignment less one is the distance to the next multiple |
| `Bits.MaskIsRem` | others/genromfs.c:517-517 | bit-and with a power of two less one is the remainder |
| `RomfsLayout.PlacedOnBoundaries` | others/genromfs.c:506-525 | all offsets are multiples of 16, so the type bits below them lose nothing |
| `RomfsLayout.HeaderWords` | others/genromfs.c:315-326 | the words of a header read back, wherever it stands |
| `RomfsWriter.StreamLength` | others/genromfs.c:400-418 | the image ends on a boundary of 1024 bytes behind the last offset of the first pass |
| `RomfsWriter.ImageSumIsZero` | others/genromfs.c:256-260 | the first 512 bytes, or all up to the last offset when there are fewer, add up to zero |
| `RomfsWriter.AppendHeld` | others/genromfs.c:244-265 | once 512 bytes are out, later data only goes behind |
| `RomfsWriter.FixInPlace` | others/genromfs.c:231-235 | the checksum fix in place in the buffer |
| `RomfsWriter.Dumper.DumpData` | others/genromfs.c:237-265 | however the stream is cut into calls, the file holds the stream with the checksum of its start in place |
| `RomfsWriter.Dumper.DumpZero` | others/genromfs.c:267-271 | zeros reach the stream through the scratch buffer |
| `RomfsWriter.Dumper.DumpAligned` | others/genromfs.c:273-278 | data reaches the stream followed by zeros up to a multiple of 16 |
| `RomfsWriter.Dumper.DumpHeader` | others/genromfs.c:285-308 | a header built in the scratch buffer reaches the stream, summed unless it is the volume's |
| `RomfsWriter.Dumper.DumpRead` | others/genromfs.c:359-367 | the reading loop copies the file up to its size or its end, whatever pieces `read` delivers |
| `RomfsWriter.Dumper.DumpZeros` | others/genromfs.c:370-376 | the filling loop writes zeros up to the next multiple of 16 |
| `RomfsWriter.Dumper.DumpFile` | others/genromfs.c:347-376 | a regular file becomes its content padded with zeros |
| `RomfsWriter.Dumper.DumpLink` | others/genromfs.c:341-346 | a symbolic link becomes its target padded with zeros |
| `RomfsWriter.Dumper.DumpNode` | others/genromfs.c:310-398 | a node writes its padding, header, content and everything below it, and the bytes written before its header equal its offset |
| `RomfsWriter.Dumper.DumpList` | others/genromfs.c:393-397 | the loop over a directory list writes all its nodes |
| `RomfsWriter.Dumper.DumpAll` | others/genromfs.c:400-418 | the file written is the image of the tree; what the image shows whoever follows its words is RomfsTree.ImageShowsTree |
| `RomfsReader.Namei` | fs/romfs.c:147-209 | the reading loop ends and finds the first entry with the name behind the first one, or the volume's own header, or nothing |
| `RomfsRoundTrip.StartAgrees` | fs/romfs.c:135-147 | in the written image the reader starts at the first header exactly when the volume name is shorter than 256, its length is no multiple of 16 and no padding stands before the first entry |
| `RomfsRoundTrip.LookupWhenStartedWrong` | fs/romfs.c:135-199 | with a name shorter than 256 and a wrong start the reader finds the volume's own name and nothing else |
| `RomfsRoundTrip.LookupInLongName` | fs/romfs.c:135-199 | with a longer name the reader starts inside it and takes four of its characters for a pointer, at least 16 megabytes far |
| `RomfsRoundTrip.AlignedStartFails` | others/genromfs.c:515-521 | an alignment of 64 for the first entry: the writer puts its header at 64, the reader starts at 32 |
| `RomfsRoundTrip.ImageHoldsTree` | others/genromfs.c:310-398 | every node of the tree stands in the image at its offset and every header field reads back |
| `RomfsRoundTrip.ImageNamed` | others/genromfs.c:405-409 | the volume's name and size read back |
| `RomfsRoundTrip.HeadersAddUp` | others/genromfs.c:285-308 | every header in the image, with its padded name, adds up to zero |
| `RomfsRoundTrip.SiblingsChain` | fs/romfs.c:92-97 | the masked next pointers lead the reader through exactly the siblings |
| `RomfsRoundTrip.PointersAreClosed` | others/genromfs.c:321-340 | every next pointer, directory pointer and hard-link pointer in the image is a header of the image; siblings strictly increase and only the last points to nothing; which header a directory points to is RomfsTree.DirectoriesLeadOn |
| `RomfsTree.ImageShowsTree` | others/genromfs.c:310-398 | a reader of the format that starts at the first header and follows only words of the image finds the whole tree: every entry with its name, type number, size, device and data or link target, every directory leading to its entries, every hard link to its target |
| `RomfsTree.DirectoriesLeadOn` | others/genromfs.c:333-340 | the second word of a directory leads to the chain of its entries, or to itself if it has none |
| `RomfsTree.ImageHasMagic` | others/genromfs.c:400-409 | the image begins with the bytes of `-rom1fs-`, its size and, behind the checksum, the volume's name |
| `RomfsRoundTrip.ReaderFollowsSiblings` | fs/romfs.c:147-199 | from its start the reader comes through the top-level entries in order, and stops |
| `RomfsRoundTrip.NameiFinds` | fs/romfs.c:149-199 | for every tree and every name: what the reader finds in the written image, or that it finds nothing |
| `RomfsRoundTrip.DataAddress` | fs/romfs.c:211-219 | the data address is right exactly for names of at most 15 characters |
| `RomfsRoundTrip.RoundTrip` | fs/romfs.c:102-219 | looking up a regular, non-empty top-level file and reading its size at its data address gives back its content, for every tree |
| `Fat12.EntryOfPacked` | kernel_loader/kernel_loader.c:482-556 | a table packed two entries to three bytes yields its entries |
| `Fat12.KnownEntries` | kernel_loader/kernel_loader.c:482-556 | six bytes of a table and their four entries |
| `Fat12.AddressDecodes` | kernel_loader/kernel_loader.c:593-595 | cylinder, head and sector number, 18 sectors on each of two sides, lead back to the sector they were computed from |
| `Fat12.ChainIsAcyclic` | kernel_loader/kernel_loader.c:618-661 | a chain whose last entry names no cluster of the table never comes back to a cluster, so the loop ends or leaves the table |
| `Fat12.StopsAtTheEnd` | kernel_loader/kernel_loader.c:618-661 | on a chain ended by any mark of the specification, the loader loads just the chain exactly when the mark is 0xfff; any other it takes for one more cluster, outside the table |
| `Fat12.WalkIsVisited` | kernel_loader/kernel_loader.c:618-661 | the clusters the loop visits are the chain and, unless its last entry is 0xfff, the cluster outside the table which that entry names |
| `Fat12.VisitsAreWalk` | kernel_loader/kernel_loader.c:618-661 | whenever the loop has come to 0xfff or out of the table without meeting the entries 0 and 1, what it has visited is such a chain |
| `Fat12.OtherMarkRunsOn` | kernel_loader/kernel_loader.c:618-661 | a disk with a file of one cluster ended by 0xff8, which the loader takes for a cluster |
| `Fat12.UnpacksEntry` | kernel_loader/kernel_loader.c:549-556 | taking an entry apart at its own byte boundary gives the half of the word the FAT specification names |
| `Fat12.WindowByte` | kernel_loader/kernel_loader.c:505-506 | the two sectors read around an entry hold all its bytes, even where it straddles a sector |
| `Fat12.Loader.ReadFat` | kernel_loader/kernel_loader.c:454-470 | the window holds the two sectors it was asked for |
| `Fat12.Loader.GetNextCluster` | kernel_loader/kernel_loader.c:482-577 | the answer is the entry of the table, for every cluster |
| `Fat12.Loader.LoadSector` | kernel_loader/kernel_loader.c:593-606 | one sector goes from the disk to where the file is loaded next |
| `Fat12.Loader.LoadFile` | kernel_loader/kernel_loader.c:581-661 | on every chain that ends in 0xfff or leads out of the table: the 512 bytes for each cluster c, in order, are sector c - 2 + the sectors of the root directory + its start, or only the first ones when the table is not asked for, and nothing else in memory changes; it tells whether the loop has left the table, and the clusters are those the loop visits |
| `Allocator.Mark` | mm/mm.c:39-39 | setting a bit of the map sets that bit and no other |
| `Allocator.Clear` | mm/mm.c:61-61 | clearing a bit of the map clears that bit and no other |
| `Allocator.FirstFree` | mm/mm.c:35-43 | the block found is free and every lower one is used; 32 when all are |
| `Allocator.BlocksAreDisjoint` | mm/mm.c:53-53 | no byte belongs to two blocks, whatever the start of the pool |
| `Allocator.BlocksLieInMemory` | mm/mm.c:27-31 | no block wraps around or leaves the memory exactly on machines with sixteen megabytes or more |
| `Allocator.Memory.FindFreeArea` | mm/mm.c:33-44 | the loop takes the lowest free block or answers -1 and changes nothing |
| `Allocator.Memory.AllocMem` | mm/mm.c:47-54 | the address of the block taken, or 0 |
| `Allocator.Memory.FreeMem` | mm/mm.c:56-62 | the block at the address is free again; the address 0 changes nothing |
| `Allocator.FreeUndoesAlloc` | mm/mm.c:47-62 | freeing what was just allocated restores the map |
| `Allocator.HistoryKeepsMap` | mm/mm.c:33-62 | over every history the bits of the map are exactly the blocks callers hold, except a block at address 0 |
| `Allocator.AllocIsFresh` | mm/mm.c:47-54 | an allocation never hands out a byte somebody holds |
| `Allocator.AllocsInOrder` | mm/mm.c:47-54 | from an empty map the blocks are handed out one behind the other, 0x80000 bytes each, from sixteen megabytes below the end of memory on, and 0 behind the 32nd |
| `Allocator.ZeroMeansFull` | mm/mm.c:47-54 | the answer 0 tells a full pool exactly on machines that have no block at address 0: not with sixteen megabytes or a smaller multiple of a block |
| `Allocator.FullPoolAnswersZero` | mm/mm.c:47-54 | on all other machines and over every history, 0 is answered exactly when all 32 blocks are held |
| `Printing.ParseNumeral` | io/k_stdio.c:75-114 | for every number and radix from 2 to 36, reading the printed text gives the number back, and the text has no leading zero |
| `Printing.NumeralOfParse` | io/k_stdio.c:75-114 | every text without leading zeros is the printed form of the number it stands for |
| `Printing.NumeralLength` | io/k_stdio.c:95-100 | the text has at most k digits exactly when the number is below the k-th power of the radix |
| `Printing.BuffersSuffice` | io/k_stdio.c:224-243 | 32-bit numbers take at most 10 decimal and 8 hexadecimal digits, so the buffers of twelve suffice |
| `Printing.WriteDigits` | io/k_stdio.c:95-100 | the loop writes the digits from the lowest on |
| `Printing.TurnRound` | io/k_stdio.c:102-111 | the loop in place reverses the text, the test for a sign notwithstanding |
| `Printing.Itoa` | io/k_stdio.c:75-114 | the buffer holds the text of the number and its end mark; the rest of it is untouched |
| `Printing.CopyNumber` | io/k_stdio.c:224-243 | a number reaches the output through its own buffer |
| `Printing.CopyPrinted` | io/k_stdio.c:215-254 | one directive writes what it prints, which is DirectivesPrint; an unknown one writes nothing |
| `Printing.VsPrintf` | io/k_stdio.c:202-259 | the output is the text the format and the arguments specify, one argument a directive; the answer is one less than its length; what each directive prints is DirectivesPrint |
| `Printing.DirectivesPrint` | io/k_stdio.c:213-254 | `%d` prints the decimal and `%x` the hexadecimal numeral of its argument, `%c` the character with its lowest eight bits, `%s` the string it points to, any other directive nothing |
| `Printing.KnownNumerals` | io/k_stdio.c:75-114 | 42 in decimal and 190 in hexadecimal, in capital letters |
| `Printing.FormatSplits` | io/k_stdio.c:207-256 | a format is printed part by part, each part with the arguments left to it |
| `Printing.SpareArgumentsIgnored` | io/k_stdio.c:213-254 | arguments behind the last directive are not looked at |
| `Printing.PlainTextStays` | io/k_stdio.c:207-256 | text without a percent sign is printed as it is |

## Left out

What a model abstracts from:

- SystemTheorems.RunIsSafe: the clock strikes the process manager at the points `System.Pc` names. Between two of these at most one status word changes, together with what is read to decide it and the parent field or exit status written before it: `do_exit` up to its report or its loop, one turn of that loop up to its report, and `do_wait` up to its report or its end are one step each. That nobody else changes what these pieces read is SystemTheorems.LoopsReadSteady.
- SystemTheorems.HalfCopiedChild: the copy of a whole record by `*p = proc_table[pid]`, together with the parent field set after it, is one step. In the record the status word stands before the message pointer and the two partner fields. A tick between them is harmless exactly when the parent already receives, because nobody selects or answers the child then; otherwise the child can be selected with what its slot held before, and its RECEIVE fails the assert on `p_sendto` in a slot that was never used.
- Registers, stacks and the code a process runs are represented by where it stands between two system calls; what it computes meanwhile is an arbitrary change of its own memory.
- Message buffers are whole values in the memory of one process; segments and address translation are not part of the model, and fork copies the memory of the parent as a value. That all forked children get the same base address (`mm/mm.c` line 165) is not modelled.
- The fields of a message that no server reads are not modelled, and memory that was never written reads as a message of zeros.
- KernelTable.Kernel.MsgReceive: does not have the branch for hardware-interrupt messages, `process.c` lines 681-696; `has_int_msg` is never set anywhere.
- KernelTable.Kernel.SysSendrec: a send to ANY, which `sys_sendrec` lets pass and for which `msg_send` would use a slot that does not exist, and a receive from INTERRUPT, which would index the table at -10, are outside its precondition.
- SystemTheorems.RunStaysGood: is about the intended form of exit, wait and exec; for the code as written see SystemAsWritten.RunsAsWritten. Clients use the stubs only, with a message that is not null, and a process whose parent is NO_TASK does not call exit, because `do_exit` would then use a slot that does not exist.
- SystemAnswers.TicksAreCounted: the variable `ticks` is the count of clock strikes in the run; that a strike inside the kernel counts too, without a change of process, is KernelTable.Kernel.ClockHandler.
- Unknown requests, for which the servers panic, do not occur in the model.
- SystemTheorems.ForkIsExact: the name, the segment descriptors and the selector are not fields of the record modelled.
- SystemAsWritten.ExecAsWritten: loading a program is an arbitrary change of the caller's memory in one step, and setting the program counter and the answer are the next. The file system, the ELF headers, the assert on the length of the path and a full allocator are not part of it, the result is an arbitrary number (`do_execl` returns none), and a caller the load finds outside its RECEIVE finishes its stub, although the load may have replaced the code of the stub.
- The call of `alloc_mem` in `do_fork` has no effect on the child and is left out.
- SystemProgress.RunnableSteps: a process that has been selected takes at least one step before the clock takes the processor from it, and a step is what leads to the next system call; for the code as written nothing is said about progress, see SystemExec.ExecEndsManager.
- RomfsLayout.PlaceIsConsecutive: `processdir` is a function from the directory tree to the placed tree, not a method that fills in list nodes; that `append` links nodes into lists in place is not captured.
- Reading directories, `stat`, `readlink`, excludes, patterns and the search for hard links in the image writer: the tree with its sizes, alignments and link targets is the input. An alignment is any positive multiple of 16; the options of the program allow powers of two, for which RomfsLayout.MaskedPadIsPad gives the padding.
- RomfsWriter.Dumper.DumpAll: names, paddings and symbolic links fit the scratch buffer of 4096 bytes; the source does not check that.
- RomfsReader.Namei: images whose next pointers come back to a header or leave the buffer, on which the loop would not end or would read what lies behind the buffer; RomfsRoundTrip.SiblingsChain shows that a written image is none of these.
- RomfsRoundTrip.LookupInLongName: where the reader goes from the pointer it takes out of the name is not followed, it lies far behind the kernel's buffer of 512 KB.
- RomfsRoundTrip.RoundTrip: the image is read from one buffer that is large enough; that the kernel's buffer is one block of 512 KB is not modelled, and a string that is not ended within the image ends with it. The first top-level entry is never compared by the reader, so it is not found.
- Fat12.Loader.LoadFile: one sector a cluster and a readable disk; the entries 0 and 1 and cycles are not covered, and what the loop does once it has come to a cluster outside the table, where it reads behind the first copy of the table and perhaps behind the disk, is not followed. The wait for a key on a zero entry is left out.
- Allocator.Memory.constructor: the memory test that finds the size is not part of the model, its result is the argument.
- Printing.VsPrintf: the format does not end in a lone percent sign, there is an argument for every directive, and the output buffer is apart from the strings and large enough; the source relies on all of this.

What has no law worth proving:

- The ring buffers of the keyboard and of the terminals, and the terminal task, which in the model just stays runnable.
- `s32_itoa_s`, whose in-place reversal of negative numbers starts at the sign, and `s32_sprintf`, which is the formatter with its arguments found in another way.
- `k_readdir`, which takes a successful read for an error.
- Assembly, port input and output, descriptor tables, interrupts beyond the clock, graphics, console and fonts.
- The older copy of the image writer, the C boot loader and the demonstration programs.
