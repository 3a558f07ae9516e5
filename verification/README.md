# Verification of the synchronisation, server and layout code

This project models the parts of an seL4 test driver in which the thread library, the
bounded-buffer server and the build tools have to get something difficult right, and proves
what they promise for every input, every schedule and every number of threads.

- **Locks** (`Notification`, `BinSem`, `BinSemLock`, `Spinlock`, `Lock`, `Mutex`). The binary
  semaphore over a kernel notification and the spinlock are state machines whose steps are the
  single accesses to shared memory, including weak exchanges that fail for no reason. Both are
  shown to implement one abstract lock with one owner.
- **The bounded-buffer server** (`Server`, `ServerProgress`, `ServerStranded`,
  `ServerOverLock`, `ServerLockProgress`, `ServerCrowd`, `Replies`). Any number of threads serve
  PRODUCER and CONSUMER requests with a mutex, a counter and two notifications. Safety, freedom
  from deadlock and a bound on the work between two changes of the counter are proved over the
  abstract lock and over the code of either lock. Signals can merge, and the exact condition
  under which that leaves a request behind is proved.
- **Atomic counters** (`Atomic`). The compare-and-exchange loops against an arbitrary environment.
- **Untyped memory** (`Untypeds`, `UntypedsLaws`, `Populate`). The greedy allocation loops with
  32-bit sums and an allocator that may refuse anything at any time.
- **Words and layouts** (`Powers`, `Words`, `BitFields`, `MessageInfo`, `CpuSet`, `Counters`,
  `Cpio`, `CpioArchive`). Register fields, the kernel message tag, processor sets, performance counters and
  the archive stripper.

`Common` holds shared definitions and counting lemmas. `dafny verify dfyconfig.toml` checks
everything.

Some things the code or its comments promise do not hold everywhere. The project proves exactly
when they do:

- wait fails only with 2^31 + 2 threads or more (`BinSem.WaitFailsIffCrowded`), and then the
  server, which ignores the failure, can lose a change of its counter (`ServerCrowd.SafeIffFew`);
- merged signals can strand a request unless the limit is 1 or there are at most two threads
  (`ServerStranded.NeverStrandedIff`);
- the byte limit of an allocation is kept below 2^31 bytes, for a single object, or by an
  allocator with less than 2^32 bytes (`UntypedsLaws.WithinSupplyIff`);
- bitmap operators act on sets for sizes of whole longs (`CpuSet.ActsOnSetsIff`);
- the debug assert of the label setter accepts values it cuts (`MessageInfo.CheckedIff`);
- on a P6 processor a measurement ends with a failed assert for an odd number of events
  (`Counters.MeasureAll`);
- the inode numbers of a stripped archive are distinct for at most one file
  (`Cpio.InodesDistinctIff`).

What comes from outside is a parameter: the schedule is a list of moves, the environment of an
atomic loop is a list of rounds, the allocator's answers are a function of the attempt, and the
measured program is a function from events to counts. Words are lists of 32 bits, and the
configuration is that of the build (32-bit words, 167 untyped capabilities).

## Model

| member | source | states |
|---|---|---|
| Notification.Signal | build/kernel/kernel_final.c:31253-31310 | A signal wakes the head of the queue, which leaves the queue, or sets the flag; a flag already set absorbs it. No thread is ever queued twice. |
| Notification.Wait | build/kernel/kernel_final.c:31313-31352 | A wait takes the flag exactly when it is set, and otherwise appends the thread to the queue. |
| BinSem.StepKeepsInv | stage/x86/pc99/include/sync/bin_sem_bare.h:27-54 | Every step of every thread keeps: the counter is 1 minus holders minus waiters, and exactly one token exists among a counter of 1, a holder, a signal not yet sent and a set flag. |
| BinSem.RunKeepsInv | stage/x86/pc99/include/sync/bin_sem_bare.h:27-54 | The same over runs of any length and any number of threads. |
| BinSem.MutualExclusion | stage/x86/pc99/include/sync/bin_sem_bare.h:27-54 | In every reachable state the counter equation and the one-token law hold, at most one thread is inside, no two signals merge, the re-read in the assert of post sees at most 1, and the unchecked increment of a holder does not overflow. |
| BinSem.NoLostWakeup | stage/x86/pc99/include/sync/bin_sem_bare.h:34-52 | Whenever a thread has decremented and is not inside, somebody holds the lock, somebody owes a signal, or the flag is set and nobody is blocked. A blocked thread and a set flag never coexist. |
| BinSem.WaitFailsIffCrowded | stage/x86/pc99/include/sync/bin_sem_bare.h:29-33 | Some run makes wait return -1 if and only if there are at least 2^31 + 2 threads. |
| BinSem.OneTooMany | stage/x86/pc99/include/sync/atomic.h:53-57 | The run that does it: a pile-up of callers down to INT_MIN, and one more caller. |
| BinSemLock.StepRefines | stage/x86/pc99/include/sync/bin_sem_bare.h:27-54 | Each step of the semaphore is a legal step, or no step, of an abstract lock with one owner. |
| BinSemLock.RunRefines | stage/x86/pc99/include/sync/bin_sem_bare.h:27-54 | Every run is a legal history of that lock, and the owners agree at the end. |
| BinSemLock.ProgressPays | stage/x86/pc99/include/sync/bin_sem_bare.h:27-54 | Every step that is not a new call and not a spurious failure lowers the lexicographic pair of owed counter changes and distance to the next one. |
| BinSemLock.StuckMeansDone | stage/x86/pc99/include/sync/bin_sem_bare.h:27-54 | If no such step is left, every caller is out, the counter is 1 and the notification is idle. |
| BinSemLock.EveryCallerGetsThrough | stage/x86/pc99/include/sync/bin_sem_bare.h:27-54 | However the threads are scheduled, the steps without new calls and spurious failures are bounded by a budget known at the start. When they end, every caller that was not refused is out, those that were waiting have acquired the lock on the way, and with fewer than 2^31 + 2 threads nobody was refused. |
| BinSemLock.OutMeansServed | stage/x86/pc99/include/sync/bin_sem_bare.h:27-54 | A thread that was in wait and is out later has acquired the lock in between. |
| BinSemLock.FirstComeFirstServed | stage/x86/pc99/include/sync/bin_sem_bare.h:27-54 | In every run, with any number of calls arriving, the threads blocked at its start acquire in the order of the queue and before everybody else; the others of them stay at the front. |
| BinSemLock.EntersAtItsTurn | stage/x86/pc99/include/sync/bin_sem_bare.h:27-54 | A thread with k others before it in the queue is number k + 1 to acquire: nobody overtakes it. |
| Spinlock.StepKeepsInv | stage/x86/pc99/include/sync/spinlock.h:30-48 | The word is 1 exactly while one thread holds the lock. |
| Spinlock.StepRefines | stage/x86/pc99/include/sync/spinlock.h:30-48 | Each step is a step of the same abstract lock, and trylock succeeds exactly when the lock is free. |
| Spinlock.RunRefines | stage/x86/pc99/include/sync/spinlock.h:30-48 | Every run, with any mixture of lock, trylock and unlock by the holder, is a legal history of the abstract lock. |
| Spinlock.InitInv | stage/x86/pc99/include/sync/spinlock.h:25-28 | A freshly initialised lock has no owner. |
| Mutex.CallKeeps | stage/x86/pc99/include/sync/mutex.h:33-35 | Starting a lock call changes neither the owner nor the phase of another thread. |
| Mutex.StepRefines | stage/x86/pc99/include/sync/mutex.h:20-42 | Either implementation of the mutex keeps its invariant and moves the abstract owner legally. |
| Mutex.StepPhases | stage/x86/pc99/include/sync/mutex.h:33-42 | A step moves its own thread forward through acquiring, holding, releasing and outside, and can move another thread only from acquiring to holding. |
| Mutex.Progress | stage/x86/pc99/include/sync/mutex.h:33-42 | While a thread is in lock or unlock, some thread holds the mutex or can take a useful step inside it. |
| Server.StepFrame | main.c:1060-1077 | What a step of a request can change: its own place, the place of a thread it wakes, and the counter only in the critical section by the value loaded there. |
| Server.StepKeepsInv | main.c:1060-1148 | Every step of every request keeps: one thread in the critical section, counter within bounds and equal to start plus produced minus consumed, and the last change is known or will become known to the other side. |
| Server.RunKeepsInv | main.c:1404-1439 | The same over runs of any length, any number of server threads and any arrival of requests. |
| Server.EveryRequestCounts | main.c:1018-1140 | In every run and for each side: the changes of the counter made by that side plus its requests still pending are those at the start plus the requests of that side that arrived. So a PRODUCER request puts one item in and a CONSUMER request takes one out, once. |
| Server.InitInv | main.c:1480-1485 | The initial state satisfies it for every limit of at least 1 and every start value within the limit. |
| Server.NeverBothStuck | main.c:1060-1148 | With a producer request and a consumer request under way, whatever signals have merged, some thread can step without a new request. |
| ServerProgress.MoveCosts | main.c:1060-1148 | Every step that does not change the counter lowers a potential, even when a signal wakes a thread that will find nothing to do. |
| ServerProgress.NoBusyWaiting | main.c:1062-1067 | A run without a change of the counter is no longer than the potential it uses up. |
| ServerProgress.EnergyBound | main.c:1062-1067 | The potential of n threads is at most 19n + 10. |
| ServerProgress.SomeRequestCompletes | main.c:1060-1148 | With both kinds of request under way, at most 19n + 10 steps pass before the counter changes, and until then a step is always possible. |
| ServerStranded.NeverStrandedIff | main.c:1062-1075 | For every start value of the counter: a blocked request that could proceed is never left with nobody to wake it if and only if the limit is 1 or there are at most two threads. |
| ServerStranded.Strand | main.c:1062-1146 | For every limit of at least 2, every start value and every three threads, the run in which two signals merge and a producer stays blocked although there is room. |
| ServerStranded.StrandedByOwnSide | main.c:1062-1146 | A request is left behind only after a change made by its own side. |
| ServerStranded.OneSlotSuffices | main.c:1062-1146 | With a limit of 1 no request is ever left behind. |
| ServerStranded.TwoThreadsSuffice | main.c:1062-1146 | In every run with at most two threads no request is ever left behind. |
| ServerOverLock.StepRefines | main.c:1060-1148 | Each step of the server running on the real code of either lock is a step, or no step, of the server on the abstract lock. The server ignores the result of lock, as in the source. |
| ServerOverLock.RunRefines | main.c:1060-1148 | So every run on either lock is matched by a run on the abstract lock that ends in the corresponding state. |
| ServerOverLock.EveryRequestCounts | main.c:1018-1140 | The same over the code of any lock, even if a lock call fails. |
| ServerOverLock.SafeOverEitherLock | main.c:1060-1148 | In every run over the spinlock, or over the semaphore with fewer than 2^31 + 2 threads: counter within bounds, counter conserved, every request counted once on its own side, both asserts hold when reached, one holder of the mutex. |
| ServerOverLock.NeverBothStuckOverEitherLock | main.c:1060-1148 | In every such run, with requests of both kinds under way, some thread can take a step that is neither a new request nor a failed retry. |
| ServerLockProgress.StepLowersEffort | main.c:1060-1148 | Over either lock every step except a change of the counter and a failed retry, new requests included, lowers one number made of the server's potential, the budget of the lock code and the calls about to return. |
| ServerLockProgress.NoSpinning | main.c:1062-1067 | So a run over either lock without a change of the counter is no longer than the number it uses up. |
| ServerLockProgress.MostEffortValue | main.c:1062-1067 | The largest such number is a polynomial of the number of threads. |
| ServerLockProgress.SomeRequestCompletesOverEitherLock | main.c:1060-1148 | Over either lock, with requests of both kinds under way, a bounded number of steps passes before the counter changes, and until then a useful step is always possible. |
| ServerCrowd.SafeIffFew | main.c:1060-1071 | The server is safe in every run if and only if its lock is the spinlock or it has fewer than 2^31 + 2 threads. |
| ServerCrowd.LosesAChange | main.c:1060-1071 | With more threads, for every limit and start value: the run in which a refused thread enters beside the holder and one change of the counter overwrites the other. |
| Replies.StepKeepsInv | build/kernel/kernel_final.c:29453-29462 | Every step keeps the bookkeeping of reply capabilities between a thread's control block, its slot, the slots kept by INIT and the waiting clients; a capability is in one place only. |
| Replies.AnsweredOnceByItsReceiver | main.c:1397-1411 | In every run the slot is empty and the caller present whenever a caller is saved; no request is answered twice; each answer goes to the client that sent the request and comes from the thread that received it. |
| Replies.NoRequestLost | main.c:1404-1411 | A received request is unanswered exactly while its receiver still holds its reply capability, and then its client is waiting for it. |
| Replies.EarlyCallersWait | main.c:987-1015 | A client whose INIT call is kept waits until it is admitted, and can then call again. |
| Replies.EveryCallAccounted | main.c:986-1015 | A client whose call has been received waits for the thread that has the call, for its turn among the callers of INIT, or for nobody because the call was skipped. |
| Replies.SkippedForEver | main.c:1161-1184 | A skipped call is never answered. |
| Atomic.SharedInt.AddSafe | stage/x86/pc99/include/sync/atomic.h:28-60 | Under arbitrary writes by others between any two accesses, values that come back, and spurious failures, the retry loop is one atomic step: the only write of its own is the old value plus the delta, at a moment when the old value is there; if it reports overflow it wrote nothing and saw the bound; it goes on only if every round was disturbed. |
| Atomic.SharedInt.IncrementSafe | stage/x86/pc99/include/sync/atomic.h:28-39 | The increment with bound INT_MAX. |
| Atomic.SharedInt.DecrementSafe | stage/x86/pc99/include/sync/atomic.h:49-60 | The decrement with bound INT_MIN. |
| Atomic.SharedInt.Increment | stage/x86/pc99/include/sync/atomic.h:63-65 | One write of the sum, brought into the range of int modulo 2^32, which is also the result. |
| Untypeds.AllocateUntypeds | main.c:152-170 | The nested loops, with 32-bit sums and any allocator, end with exactly the allocations, attempts and array contents of the greedy specification. |
| Untypeds.FillInPlace | main.c:162-167 | The inner loop does this for one size. |
| Untypeds.Vka.AllocUntyped | stage/x86/pc99/include/vka/object.h:40-82 | A granted object is new and live; a refusal leaves a zeroed record and changes nothing else. |
| UntypedsLaws.GreedyFits | main.c:159-168 | For every allocator and every byte limit: at most max objects, sizes non-increasing and above a page; below the count limit every size was refused when last tried or no longer fits; the total is within the limit if and only if it is below 2^32, as it is for limits below 2^31. |
| UntypedsLaws.SupplyKeepsLimit | main.c:163 | An allocator that hands out less than 2^32 bytes in the call keeps every limit, UINT_MAX included. |
| UntypedsLaws.WithinSupplyIff | main.c:163 | All allocators of a given supply keep the byte limit if and only if the limit is below 2^31, at most one object is asked for, or the supply is below 2^32 bytes. |
| UntypedsLaws.WithinBytesIff | main.c:163 | Without a bound on the supply: if and only if the limit is below 2^31 or at most one object is asked for. |
| UntypedsLaws.Overshoots | main.c:163 | From 2^31 bytes on and with two objects or more, an allocator that grants two halves of the address space and nothing else makes the 32-bit sum 0 and the total 2^32. |
| UntypedsLaws.UnlimitedSweep | main.c:181 | With the limit UINT_MAX, as populate_untypeds passes it, the loop stops short of the count only after every size has been refused. |
| UntypedsLaws.GreedyTakesSetBits | main.c:159-168 | If nothing is refused and the count suffices, there is one object per set bit of the byte limit above the page bits, and together they make up the limit rounded down to a multiple of 2^13. |
| Populate.FreeObjects | main.c:141-148 | Exactly the listed objects stop being live. |
| Populate.ListSizes | main.c:182-185 | The size list copies the sizes of the objects and keeps its other entries. |
| Populate.PopulateUntypeds | main.c:172-196 | The requests are first those of the greedy loop for 2^25 bytes in 16 objects, then those for UINT_MAX and 167, and the listed sizes are those of the second. Conservation: what was live before stays live, the reserve is gone, and exactly the returned objects are added, none of them an old one. The sizes are non-increasing and between 13 and 31; there are fewer than 167 only if every size had been refused. |
| Populate.OneObjectForDriver | main.c:61-64 | An allocator that never refuses gives the driver one object of 2^25 bytes. |
| Words.ShlValue | stage/x86/pc99/include/utils/arith.h:26 | Shifting left multiplies modulo 2^32. |
| Words.MaskValue | stage/x86/pc99/include/utils/arith.h:26-33 | BIT(n) is 2^n and MASK(n) is 2^n - 1. |
| BitFields.Register.WriteMasked | stage/x86/pc99/include/platsupport/io.h:295-301 | The masked bits come from the value and the others stay. |
| BitFields.Register.WriteBits | stage/x86/pc99/include/platsupport/io.h:312-319 | In place, the bits of the field come from the value and all others stay. |
| BitFields.Register.ReadBits | stage/x86/pc99/include/platsupport/io.h:303-310 | The result is the register divided by 2^first, modulo 2^nbits. |
| BitFields.ReadValue | stage/x86/pc99/include/platsupport/io.h:303-310 | Reading a field is division by 2^first and remainder by 2^nbits, for every offset and width. |
| BitFields.AcceptsIff | stage/x86/pc99/include/platsupport/io.h:299 | The assert passes if and only if the value modulo 2^(32 - first) fits the field, so it does not look at bits that are shifted out. |
| BitFields.WriteBit | stage/x86/pc99/include/platsupport/io.h:312-319 | Bit by bit: the field is replaced and everything else is kept. |
| BitFields.ReadAfterWrite | stage/x86/pc99/include/platsupport/io.h:303-319 | What was written is read back modulo 2^(32 - first). |
| BitFields.OtherFieldUnchanged | stage/x86/pc99/include/platsupport/io.h:303-319 | A disjoint field reads as before. |
| BitFields.WritesCommute | stage/x86/pc99/include/platsupport/io.h:312-319 | Writes to disjoint fields commute. |
| MessageInfo.PartMasks | stage/x86/pc99/include/sel4/shared_types_gen.h:163-298 | The fields are those selected by the constants 0xfffff000, 0xe00, 0x180 and 0x7f of the generated code. |
| MessageInfo.GetValue | stage/x86/pc99/include/sel4/shared_types_gen.h:163-172 | A getter is the register read of its field, a quotient and a remainder of the word. |
| MessageInfo.GetOfNew | stage/x86/pc99/include/sel4/shared_types_gen.h:123-143 | Each field of a new tag reads as its argument modulo 2^width. |
| MessageInfo.NewOfGets | stage/x86/pc99/include/sel4/shared_types_gen.h:123-143 | Packing the four fields of any word gives back that word, so tags and field tuples correspond one to one. |
| MessageInfo.GetOfSet | stage/x86/pc99/include/sel4/shared_types_gen.h:174-181 | A setter stores the value cut to the width, and the other three fields read as before. |
| MessageInfo.SetKeepsIff | stage/x86/pc99/include/sel4/shared_types_gen.h:174-181 | The value passed is the value read back if and only if it fits the field. |
| MessageInfo.CheckedIff | stage/x86/pc99/include/sel4/shared_types_gen.h:177 | The debug assert of a setter says that the value fits, except for the label, where it says nothing. |
| MessageInfo.LabelCutSilently | stage/x86/pc99/include/sel4/shared_types_gen.h:177 | The label setter accepts 2^20 and stores 0. |
| MessageInfo.SetIsWrite | stage/x86/pc99/include/sel4/shared_types_gen.h:174-181 | A setter is the register write of the cut value. |
| MessageInfo.SetsCommute | stage/x86/pc99/include/sel4/shared_types_gen.h:174-181 | Setters of different fields commute. |
| MessageInfo.ReadsLastUpdate | stage/x86/pc99/include/sel4/shared_types_gen.h:174-181 | After any sequence of setters each field reads as its own last update, or as at the start. |
| MessageInfo.SameLastUpdates | stage/x86/pc99/include/sel4/shared_types_gen.h:174-181 | Sequences of setters that agree on the last update of each field leave equal words. |
| MessageInfo.Tag.Update | stage/x86/pc99/include/sel4/shared_types_gen.h:194-200 | The pointer form of a setter does in place what the value form computes. |
| MessageInfo.Tag.Reset | stage/x86/pc99/include/sel4/shared_types_gen.h:145-161 | So does the pointer form of new. |
| CpuSet.Insert | stage/x86/pc99/include/sched.h:82-85 | In place, the set gains the processor if it is in range, and nothing else happens. |
| CpuSet.Remove | stage/x86/pc99/include/sched.h:82-86 | In place, the set loses the processor, and nothing else happens. |
| CpuSet.IsSet | stage/x86/pc99/include/sched.h:87 | The result is not zero if and only if the processor is in range and in the set. |
| CpuSet.Combine | stage/x86/pc99/include/sched.h:89-97 | The loop computes the operation of the old contents long by long, also when destination and sources are the same array. |
| CpuSet.PutMembers | stage/x86/pc99/include/sched.h:82-86 | Setting adds one element, clearing removes one, and an index out of range does nothing. |
| CpuSet.MergeMembers | stage/x86/pc99/include/sched.h:89-101 | For sizes of whole longs the three operators are intersection, union and symmetric difference. |
| CpuSet.BlankMembers | stage/x86/pc99/include/sched.h:108 | Clearing the memory gives the empty set. |
| CpuSet.BeyondUnchanged | stage/x86/pc99/include/sched.h:82-108 | Set, clear, zero and the three operators leave every bit after the given size alone. |
| CpuSet.SameBytesIff | stage/x86/pc99/include/sched.h:109 | Comparing memory is comparing sets. |
| CpuSet.AllocFits | stage/x86/pc99/include/sched.h:111-112 | The allocated size addresses every processor below n with less than one long to spare, and is a whole number of longs. |
| CpuSet.ProgramRefines | stage/x86/pc99/include/sched.h:82-109 | Any program of set, clear, zero, and, or and xor over any number of bitmaps acts on sets. |
| CpuSet.ActsOnSetsIff | stage/x86/pc99/include/sched.h:94 | This holds for all programs if and only if the size is a multiple of the size of a long. |
| Counters.OnePlace | stage/x86/pc99/include/sel4bench/sel4bench.h:177-181 | Each event belongs to exactly one pair of chunk and counter, and its chunk is one that is run. |
| Counters.EnableCounters | stage/x86/pc99/include/sel4bench/sel4bench.h:192-214 | The mask is exactly the counters of the chunk that have an event, each is configured with its own event, running and at zero, and the 32-bit index does not wrap. Reports whether the asserts of start accept the mask. |
| Counters.Configure | stage/x86/pc99/include/sel4bench/sel4bench.h:200-209 | The loop configures the counters of the chunk with their events and leaves the others alone. |
| Counters.Pmu.Switch | stage/x86/pc99/include/sel4bench/arch/sel4bench.h:212-273 | Start and stop accept a mask of existing counters, or all ones for every counter, on a P6 only the full set. Then every counter of the mask is set going or still and no other; a start clears exactly the counters whose flag it sets. |
| Counters.GetCounters | stage/x86/pc99/include/sel4bench/arch/sel4bench.h:136-150 | Each counter of the mask lands at its own index from the base on, and nothing else is written. |
| Counters.ReadAndStopCounters | stage/x86/pc99/include/sel4bench/sel4bench.h:226-232 | The counts of the mask land at the index of the chunk, the counters of the mask stop, and the others keep their state. |
| Counters.MeasureChunk | stage/x86/pc99/include/sel4bench/sel4bench.h:192-232 | One enabled, measured and read chunk gives its events their counts, touches no other result, leaves its counters stopped and the other counters as they were. |
| Counters.MeasureAll | stage/x86/pc99/include/sel4bench/sel4bench.h:174-232 | Running all chunks gives every event its own count at its own index. It gets to the end if and only if the processor is not a P6 or the number of events is even. |
| Cpio.GetHeaderIff | stage/x86/pc99/common/cpio-strip.c:49-54 | From the data of an entry the header is found if and only if the name size in the header and the length of the name string align to the same place, as they do when they agree. |
| Cpio.NumberOfHex | stage/x86/pc99/include/cpio/cpio.h:22-36 | A number written in hexadecimal, in capital or small letters, is read back. |
| Cpio.NumberIff | stage/x86/pc99/include/cpio/cpio.h:22-36 | A field is read as a number if and only if all its characters are hexadecimal digits. |
| Cpio.OnlyHeaders | stage/x86/pc99/include/cpio/cpio.h:17-36 | What the reader accepts is headers with the magic and the two sizes at their places, one behind the other, up to one with the name of the trailer. |
| Cpio.FindHeader | stage/x86/pc99/common/cpio-strip.c:105-117 | In the archive as rewritten so far, the lookup of entry i leads to the header of entry i, under the alignment condition of GetHeaderIff. |
| Cpio.ReadingIgnoresMeta | stage/x86/pc99/common/cpio-strip.c:105-113 | Reading an archive gives the same entries, names, sizes and data positions whatever the four metadata fields hold. |
| Cpio.StrippedOnlyMeta | stage/x86/pc99/common/cpio-strip.c:124-132 | Stripping changes no byte outside those fields. |
| Cpio.StrippedFields | stage/x86/pc99/common/cpio-strip.c:124-132 | Entry j ends with its synthesised inode, a zero owner, a zero group and a zero time. |
| Cpio.StrippedCanonical | stage/x86/pc99/common/cpio-strip.c:105-133 | Archives that differ in those fields only become equal, from any entry on. |
| Cpio.SameStrippedIff | stage/x86/pc99/common/cpio-strip.c:105-133 | Two readable archives are stripped to the same bytes if and only if they differ in those fields only. |
| Cpio.StripAgain | stage/x86/pc99/common/cpio-strip.c:105-133 | Stripping keeps the layout, and stripping twice is stripping once. |
| Cpio.InodeFieldReads | stage/x86/pc99/common/cpio-strip.c:124-125 | The field is seven hexadecimal digits, in small letters, that read as 11 + i in 32 bits without its last digit, and a zero byte. |
| Cpio.StrippedInode | stage/x86/pc99/common/cpio-strip.c:124-125 | So it is in the bytes of every entry of a stripped archive. |
| Cpio.InodeFieldIff | stage/x86/pc99/common/cpio-strip.c:120-125 | Two fields are equal if and only if the numbers agree after division by 16. |
| Cpio.ClashIff | stage/x86/pc99/common/cpio-strip.c:120-125 | The same for the inode fields of two entries of a stripped archive. |
| Cpio.InodesDistinctIff | stage/x86/pc99/common/cpio-strip.c:120-125 | The inode fields of a stripped archive are distinct, as its comment intends, if and only if it has at most one file. |
| Cpio.RewriteKeeps | stage/x86/pc99/common/cpio-strip.c:124-132 | Rewriting one header keeps the layout and every name. |
| Cpio.Strip | stage/x86/pc99/common/cpio-strip.c:98-133 | The loop, which looks every entry up in the bytes it is rewriting, produces the stripped archive in place, with the inode of every entry as stated; an unreadable archive is left as it is. |
| CpioArchive.ReadsTheFiles | stage/x86/pc99/include/cpio/cpio.h:17-36 | In an archive built field by field from any files and a trailer, the reader finds exactly the files, with the headers, name sizes, data positions and sizes computed from them, and every name fits. |
| CpioArchive.StripsTheFiles | stage/x86/pc99/common/cpio-strip.c:105-133 | Stripping such an archive gives the archive of the same files with a synthesised inode and zero owner, group and time, and the same trailer and padding. |
| CpioArchive.PartsAt | stage/x86/pc99/include/cpio/cpio.h:22-36 | Header, name and data of an entry are the bytes at these positions. |

## Left out

- Weak memory: steps interleave in one order, as on the single processor the build is configured for.
- Badges, bound notifications and polling: no modelled caller uses them.
- The green-thread library and the branches of the server built on it.
- The WAIT, SEND_WAIT and TMNT requests, the barrier of INIT beyond the replies it keeps and sends, and process setup around the server.
- The counter of waits: its increment is a step of the server, but its value, which races, is not modelled.
- Condition variables and the counting semaphore.
- ServerProgress.SomeRequestCompletes: over the abstract lock; ServerLockProgress has the same over the real locks.
- ServerOverLock.SafeOverEitherLock: over the semaphore for fewer than 2^31 + 2 threads, because with more it is false (ServerCrowd.SafeIffFew).
- ServerOverLock.NeverBothStuckOverEitherLock: over the semaphore for fewer than 2^31 + 2 threads; the unlock call of a thread that was refused the lock is not modelled.
- ServerLockProgress.SomeRequestCompletesOverEitherLock: the same holds for it.
- Counters.Pmu.Switch: for 31 and 32 counters the mask of all counters is the intended one, where the shift of a signed 1 in the source is undefined; overflow of a counter is not modelled.
- Counters.EnableCounters: takes an events array that fits a 32-bit address space.
- Cpio.Strip: takes archives in which every name string is aligned like the size in its header, because `strlen` otherwise leads to another place than the header (Cpio.GetHeaderIff).
- Cpio.FindHeader: takes the same archives.
- Looking entries up in an archive: the library that does it is not part of this model, so lookup follows the new ASCII format, with aligned addresses counted from the start of the archive. File handling is left out.
- CpuSet: negative indices are taken after their conversion to unsigned, and counting members is left out.
- BitFields: a field of all 32 bits is refused, as by the assert inside MASK.
- The other generated bit-field types and the byte-swapping helpers would only add easy members.
