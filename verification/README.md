# Chariot, in Dafny

A model of the parts of the chariot operating system whose correctness is least visible in
the code, with proofs about every input, every run or every interleaving. Each module stands
for one component; `dafny verify dfyconfig.toml` checks them all.

## What is modelled

**Kconfig** (`tools/menuconfig.py`). `KconfigExpr` holds the three-valued expressions, their
printer and the recursive-descent parser; `KconfigLoops` the three-colour loop check;
`KconfigCache` and `KconfigSymbols` the memoised symbol values with their partial
invalidation; `KconfigOrder` ties the loop check to the evaluation order; `KconfigMeaning` says
what values mean; `KconfigSession` joins them. Main results: every read in every run of
assignments and reads returns the value computed from scratch; that is the value in the one
assignment where each symbol has the least value its type allows that covers everything in its
favour; printing and parsing returns the expression up to re-association, with
the same meaning; the loop check raises exactly on cyclic graphs.
*Found:* the loop check does not see that the type of a tristate symbol depends on MODULES. An
accepted configuration can therefore recurse for ever (`SpiralNeverEnds`); an order for
evaluation exists exactly when the graph has no cycle and no tristate symbol feeds MODULES.

**Block buffer cache** (`kernel/block.cpp`). `BlockCache` is the interleaving of readers,
writers, the flush task, `sync_all` and reclaim, with flushing in two steps; `BlockIo` is the
object with the copy loop, against a flat disk of bytes. Main results: the reference count is
the number of holders in every reachable state, so dirty pages are never reclaimed; reads
return what was last written.
*Found:* neither the copy into a page nor `register_write` takes the buffer's lock. A write
that falls between writing the blocks and clearing the dirty flag is lost (`LostWrite`). The
end of a flush is harmless in every continuation exactly when the page is still what was
written, or somebody is going to write it again: a writer that has yet to mark it, or the
buffer on its way to the flush task (`FlushEndExact`).

**Frames and page tables** (`kernel/phys.cpp`, `arch/x86/paging.cpp`, `arch/x86/mm.cpp`).
`PhysFrames` is the intrusive free list inside the free memory; `PageTables` the four-level
tree (section 4.5 of the Intel 64 and IA-32 SDM, Volume 3A) built from frames of that
allocator; `FrameClients` the frames that are out. Main results: in every run of allocations
and releases, free and outstanding frames never overlap and none is lost; any sequence of map,
unmap and lookup refines a flat map, and the processor's own walk of the tables finds exactly
that map; a table's lifetime gives every frame back.
*Found:* when no run is long enough, `late_phys_alloc` leaves its loop with a null frame
(`Alloc` says exactly when, `NoFit` shows one); merging is complete exactly when no three runs
touch in a row (`PatchComplete`, `PatchMisses`; for one release: `ReleaseComplete`); the
no-execute bit is lost because flags are 16 bits wide, so execute permission is always granted
(`EncodeDecode`).

**Sleeping and waking** (`kernel/proc.cpp`, `net/ipcsock.cpp`, `kernel/wait.cpp`). `Waitpid`
is the handshake of the zombie and waiter lists; `WaitQueue` the wait queue; `IpcSocket` the
message sockets on top of it. Main results: every process that has left is in exactly one
place and is reaped once, by its parent; what socket callers see is what a queue used by one
caller at a time would show; no wake-up is lost.
*Found:* reaping hands children to init without looking at the lists, which can leave init
asleep beside a zombie it waits for (`Stranded`; exactly when: `ReapPair`). A poller joins the
wait queue exclusive and at its head, so the single wake of a send can stop at the poller and
leave a receiver asleep beside its message (`LostWake`; exactly when: `StepWake`).

**Brainfuck** (`bin/bf/main.cpp`). The flat interpreter loop against nested loops: same data,
same output, and it halts exactly when the program does.
*Found:* the depth check compares with the size of the loop array in bytes. The loop leaves the
array exactly when control, running or skipping, meets an opening bracket at depth 256
(`Interprets`, `DeepSkip`).

**Terminal screen** (`kernel/vconsole.cpp`). The scrolling buffer is the last rows of an
unbounded page, a display that follows the drawing calls shows the buffer, and the page of a
text is its lines cut into rows.
*Found:* redrawing reads a cell before it checks the bounds. It reads outside the buffer exactly
when the cursor moves to or from the place behind the last cell (`Feed`, `PastEnd`), which any
text that fills the screen reaches (`FilledAtEnd`).

**Flattened device trees** (`kernel/devicetree.cpp`, section 5.4 of the Devicetree
Specification). Parsing what was encoded gives back the tree, children reversed.

**MD5** (`bin/core/md5.c`, sections 3.1 to 3.5 of RFC 1321). However a message is cut into
updates, its digest is the one of the padded message; the unrolled steps are the 64 steps of
the definition. `Md5Vector` works out the digest of "abc" (section A.5).

**Line discipline** (`fs/tty.cpp`, section 11.1.6 of POSIX.1-2017 Base Definitions). Input is
delivered by whole lines, corrections never reach the reader.

**Clock** (`kernel/time.cpp`). Readings never go back while none falls between the last two
stores of the timer handler.
*Found:* above 18446744073 cycles per second the 64-bit product overflows and the clock jumps
back within the second, up to 2^64 - 512; beyond that every second reads as its start
(`SecondIff`, `TooFast`). A reading between the last two stores goes back exactly when too few
cycles have gone by since the new second began (`BackIff`, `TornReading`).

## Model

| member | source | states |
|---|---|---|
| `KconfigExpr.ShortCircuit` | tools/menuconfig.py:6262-6316 | Stopping at n in an AND and at y in an OR gives the value with both operands always evaluated |
| `KconfigExpr.PrintedExpr` | tools/menuconfig.py:6334-6375 | Parsing the printed tokens of any expression, followed by anything that ends an expression, consumes exactly those tokens and gives the right-nested form |
| `KconfigExpr.PrintedFactor` | tools/menuconfig.py:6609-6614 | The same for a factor: what the printer parenthesises is what the grammar needs parenthesised |
| `KconfigExpr.RoundTrip` | tools/menuconfig.py:3650-3734 | The parser inverts the printer up to re-association and consumes every token, with and without the rewriting of m |
| `KconfigExpr.NormalValue` | tools/menuconfig.py:6262-6288 | Re-association leaves the value unchanged under every assignment, missing values included |
| `KconfigExpr.RoundTripKeepsMeaning` | tools/menuconfig.py:6334-6375 | Print then parse succeeds and keeps the value under every assignment |
| `KconfigExpr.NormalPrint` | tools/menuconfig.py:6334-6375 | Re-association cannot be seen in print |
| `KconfigExpr.SamePrintIffSameNormal` | tools/menuconfig.py:6334-6375 | Two expressions print alike if and only if they are equal up to re-association |
| `KconfigExpr.ParseExpr` | tools/menuconfig.py:3650-3689 | A successful parse consumes at least one token, so the recursive descent ends |
| `KconfigExpr.AndBindsTighter` | tools/menuconfig.py:3650-3698 | a || b && c and a && b || c both parse with && inside || |
| `KconfigExpr.NotBindsTightest` | tools/menuconfig.py:3700-3734 | ! and relations bind tighter than && |
| `KconfigExpr.PlainM` | tools/menuconfig.py:3706-3716 | A plain m in a condition stands for m && MODULES; other symbols, and m in a relation, for themselves |
| `KconfigExpr.Parser.CheckToken` | tools/menuconfig.py:2861-2867 | Takes the next token exactly if it is the one asked for |
| `KconfigExpr.Parser.Expr` | tools/menuconfig.py:3650-3689 | The cursor-moving parser accepts, rejects and stops exactly as the grammar function says |
| `KconfigExpr.Parser.AndExpr` | tools/menuconfig.py:3691-3698 | The same for conjunctions |
| `KconfigExpr.Parser.Factor` | tools/menuconfig.py:3700-3734 | The same for factors, errors included |
| `KconfigLoops.OrderedHasNoCycle` | tools/menuconfig.py:6834-6906 | An order with dependents first over all edges rules out every cycle |
| `KconfigLoops.Checker.CheckSym` | tools/menuconfig.py:6834-6906 | A visit finishes the symbol and keeps the colours of the open path, or returns a walk back to an open symbol, or raises with a cycle |
| `KconfigLoops.Checker.CheckAll` | tools/menuconfig.py:1336-1338 | The check raises if and only if the graph has a cycle, shows one when it does, and otherwise leaves an order with dependents first |
| `KconfigOrder.AcceptedIsRanked` | tools/menuconfig.py:4547-4556 | An accepted graph in which no tristate symbol feeds MODULES has an order in which everything a symbol reads comes before it |
| `KconfigOrder.CheckedOrder` | tools/menuconfig.py:6943-6989 | The check raises exactly on cycles, and acceptance supplies the order for evaluation |
| `KconfigOrder.RankedOnlyIf` | tools/menuconfig.py:4547-4556 | Conversely, such an order exists only if the graph has no cycle and no tristate symbol feeds MODULES |
| `KconfigOrder.SpiralAccepted` | tools/menuconfig.py:4547-4556 | A concrete configuration passes the loop check |
| `KconfigOrder.SpiralNeverEnds` | tools/menuconfig.py:4702-4779 | Its evaluation ends at no depth, whatever the user assigned |
| `KconfigCache.TriMono` | tools/menuconfig.py:4702-4779 | Knowing more symbol values never changes a computed value |
| `KconfigCache.TriTotal` | tools/menuconfig.py:4702-4779 | A value can be computed as soon as everything it reads is known |
| `KconfigCache.EvalTerminates` | tools/menuconfig.py:4702-4779 | With an evaluation order, evaluation from scratch ends, and deeper recursion changes nothing |
| `KconfigCache.Coherent` | tools/menuconfig.py:4702-4779 | If every cached value can be recomputed from cached values, every cached value is the one computed from scratch |
| `KconfigCache.CoherentVis` | tools/menuconfig.py:4790-4798 | The same for cached visibilities |
| `KconfigCache.StoreTri` | tools/menuconfig.py:4778-4779 | Caching a computed value keeps all cached values recomputable |
| `KconfigCache.StoreVis` | tools/menuconfig.py:4790-4798 | Caching a computed visibility does too |
| `KconfigCache.SweepKeepsReplay` | tools/menuconfig.py:5133-5165 | An invalidation that stops at symbols with nothing cached still leaves only good values |
| `KconfigCache.PromptlessKeepsReplay` | tools/menuconfig.py:5167-5190 | Leaving a symbol without prompts alone is sound: its user value is not used |
| `KconfigMeaning.StrcmpOrders` | tools/menuconfig.py:6635-6638 | Texts compare as in a dictionary |
| `KconfigMeaning.ValueHolds` | tools/menuconfig.py:6262-6316 | An expression is at least m, or at least y, exactly if its parts say so: both operands of &&, one of ||, the negation of the opposite for !, numbers or texts in the stated order for a relation |
| `KconfigMeaning.VisibilityMeans` | tools/menuconfig.py:6560-6587 | The visibility is how far some prompt lets the user raise the symbol; where there is no m, m counts as y |
| `KconfigMeaning.TriMeans` | tools/menuconfig.py:4702-4779 | The value is the least one the type allows that covers every select and either the user value up to the visibility, or the first default in effect and the implies whose dependencies are met; it is never m for a bool; a line is written exactly if one of these speaks for it or it is visible |
| `KconfigMeaning.ConsistentIsEval` | tools/menuconfig.py:4702-4779 | In any assignment where every symbol has the value it means, evaluation finds those values, so there is at most one |
| `KconfigMeaning.ConsistentExists` | tools/menuconfig.py:4702-4779 | With an evaluation order there is one |
| `KconfigSymbols.DependOn` | tools/menuconfig.py:6590-6607 | Registers a symbol with exactly the non-constant symbols of an expression |
| `KconfigSymbols.Register` | tools/menuconfig.py:3740-3787 | Registers a symbol with exactly the symbols its properties mention |
| `KconfigSymbols.BuildDep` | tools/menuconfig.py:3740-3787 | The dependents are exactly the symbols that mention a symbol in some property |
| `KconfigSymbols.Kconfig.constructor` | tools/menuconfig.py:3740-3787 | Starts with empty caches, which are coherent |
| `KconfigSymbols.Kconfig.ExprValue` | tools/menuconfig.py:6262-6316 | Evaluating through the caches gives the value over the cached valuation and only adds to the caches |
| `KconfigSymbols.Kconfig.TypeIsBool` | tools/menuconfig.py:4547-4556 | Whether a symbol counts as bool, through the cached value of MODULES |
| `KconfigSymbols.Kconfig.ComputeVisibility` | tools/menuconfig.py:6560-6589 | The loop over prompts computes the visibility the cached valuation gives |
| `KconfigSymbols.Kconfig.Visibility` | tools/menuconfig.py:4790-4798 | Returns the cached visibility, filling the cache first |
| `KconfigSymbols.Kconfig.DefaultOf` | tools/menuconfig.py:4738-4744 | The loop finds the first default whose condition is not n |
| `KconfigSymbols.Kconfig.UnsetValueOf` | tools/menuconfig.py:4734-4751 | The value without a usable user value: default, then weak reverse dependencies |
| `KconfigSymbols.Kconfig.SelectedValueOf` | tools/menuconfig.py:4753-4767 | Reverse dependencies raise the value, and m becomes y for bool symbols |
| `KconfigSymbols.Kconfig.ComputeValue` | tools/menuconfig.py:4702-4779 | The whole computation agrees with its functional form over the cached valuation |
| `KconfigSymbols.Kconfig.TriValue` | tools/menuconfig.py:4702-4779 | The property returns the cached valuation and keeps the caches coherent |
| `KconfigSymbols.Kconfig.InvalidateAll` | tools/menuconfig.py:3815-3823 | Drops every cached value of a defined symbol and no other |
| `KconfigSymbols.Kconfig.RecInvalidate` | tools/menuconfig.py:5133-5165 | The recursion ends, drops the symbol and its dependents, and sweeps everything that depends on what it dropped |
| `KconfigSymbols.Kconfig.RecInvalidateIfHasPrompt` | tools/menuconfig.py:5167-5190 | After a change of user value the caches are coherent again |
| `KconfigSymbols.Kconfig.SetValue` | tools/menuconfig.py:4832-4919 | Accepts exactly the values that fit the type (or are already set), and keeps the caches coherent |
| `KconfigSymbols.Kconfig.UnsetValue` | tools/menuconfig.py:4921-4928 | Removes the user value and keeps the caches coherent |
| `KconfigSymbols.Kconfig.ReadTri` | tools/menuconfig.py:4702-4779 | Reading a value returns the value computed from scratch |
| `KconfigSymbols.Kconfig.ReadVisibility` | tools/menuconfig.py:4790-4798 | Reading a visibility returns the one computed from scratch |
| `KconfigSymbols.Kconfig.Run` | tools/menuconfig.py:4832-4928 | In every run of assignments, removals and reads, each read returns what evaluation from scratch gives for the user values at that moment |
| `KconfigSymbols.Kconfig.Apply` | tools/menuconfig.py:4832-4928 | One operation does to the user values what it should, and a read returns the value computed from scratch at every depth |
| `KconfigSession.Session` | tools/menuconfig.py:1332-1338 | Raises exactly on a cycle; where no tristate symbol feeds MODULES, every read in every run on an accepted configuration is the value that evaluation from scratch settles on, which is the one of the only consistent assignment |
| `BlockCache.StepCounted` | kernel/block.cpp:129-162 | Every step keeps the reference count equal to holders, channel entries and the one in the flush task |
| `BlockCache.StepDirty` | kernel/block.cpp:137-162 | Every step keeps dirty buffers referenced |
| `BlockCache.StepInvariant` | kernel/block.cpp:113-213 | Every step, except an unclean end of a flush, keeps cache plus disk equal to the reference disk, and one flush at a time in a buffer |
| `BlockCache.FlushEndExact` | kernel/block.cpp:164-181 | After the end of a flush no continuation whose flushes end cleanly loses anything, if and only if the page is unchanged since its blocks were written, or a writer has yet to mark it, or the buffer is on its way to the flush task |
| `BlockCache.ExposedLoses` | kernel/block.cpp:183-190 | Otherwise releases and a reclaim alone lose the page, from every such state |
| `BlockCache.RunCounted` | kernel/block.cpp:23-30 | In every run, counts are exact and a dirty buffer has a positive count, so reclaim never drops it |
| `BlockCache.RunInvariant` | kernel/block.cpp:113-213 | In every run whose flushes end cleanly in that sense, the cache refines the reference disk |
| `BlockCache.ReadsLastWritten` | kernel/block.cpp:194-213 | A thread that holds the data of a page in such a run sees what was last written there |
| `BlockCache.OnlyWritesChange` | kernel/block.cpp:46-75 | Flushing, the end of a flush included, syncing, releasing and reclaiming change no logical contents |
| `BlockCache.GuardedIsClean` | kernel/block.cpp:164-181 | If nobody copies into a page while it is being flushed, every flush ends cleanly |
| `BlockCache.LostWrite` | kernel/block.cpp:164-181 | A concrete run of two writers and the flush task loses the second write |
| `BlockIo.DeviceByte` | kernel/block.cpp:201-206 | Without a cached page, byte a is byte a % size of device block a / size |
| `BlockIo.BufferCache.constructor` | kernel/block.cpp:105-110 | Starts empty over any disk whose blocks divide the page |
| `BlockIo.BufferCache.ReadPage` | kernel/block.cpp:201-206 | The loop over blocks reads the page off the disk |
| `BlockIo.BufferCache.Get` | kernel/block.cpp:113-135 | Takes a reference and changes no byte |
| `BlockIo.BufferCache.Data` | kernel/block.cpp:194-213 | Fills the page if need be, returns its contents, changes no byte |
| `BlockIo.BufferCache.Release` | kernel/block.cpp:141-162 | Sends dirty buffers to the flush task, drops the reference of clean ones and, low on memory, the page with the last one, changes no byte |
| `BlockIo.BufferCache.Flush` | kernel/block.cpp:164-181 | The disk then holds the page, and no byte changes |
| `BlockIo.BufferCache.WritePage` | kernel/block.cpp:169-176 | The loop over blocks writes this page and no other |
| `BlockIo.BufferCache.Reclaim` | kernel/block.cpp:183-190 | Drops exactly clean unreferenced pages and changes no byte |
| `BlockIo.BufferCache.AccessPage` | kernel/block.cpp:235-250 | One turn of the copy loop reads or replaces exactly the bytes of its range |
| `BlockIo.BufferCache.BlockRw` | kernel/block.cpp:226-262 | A transfer of any size and offset reads or replaces exactly the bytes of its range on a flat disk |
| `PhysFrames.TakeSound` | kernel/phys.cpp:54-86 | Taking frames off a run keeps runs disjoint and the tail ascending |
| `PhysFrames.TakeExact` | kernel/phys.cpp:54-86 | It removes exactly the frames handed out |
| `PhysFrames.InsertSound` | kernel/phys.cpp:102-129 | Putting a run that is not free back keeps runs disjoint |
| `PhysFrames.InsertExact` | kernel/phys.cpp:102-129 | It adds exactly its frames |
| `PhysFrames.InsertAscending` | kernel/phys.cpp:114-129 | The insertion point keeps the tail ascending |
| `PhysFrames.PatchExact` | kernel/phys.cpp:131-145 | Merging changes neither the free frames nor their number |
| `PhysFrames.PatchSound` | kernel/phys.cpp:131-145 | Merging keeps runs disjoint |
| `PhysFrames.PatchTail` | kernel/phys.cpp:131-145 | Merging keeps an ascending tail ascending |
| `PhysFrames.PatchComplete` | kernel/phys.cpp:131-145 | No two neighbours touch afterwards if and only if no three runs touched in a row before |
| `PhysFrames.PatchMisses` | kernel/phys.cpp:131-145 | Three runs in a row stay two |
| `PhysFrames.ReleaseComplete` | kernel/phys.cpp:102-145 | Where no neighbours touched, none touch after a release if and only if the run does not close the gap between two others |
| `PhysFrames.Kmem.constructor` | kernel/phys.cpp:34-39 | Starts with an empty list |
| `PhysFrames.Kmem.Memset` | kernel/phys.cpp:54-86 | Zeroes exactly the frames handed out |
| `PhysFrames.Kmem.FindFit` | kernel/phys.cpp:54-86 | The walk stops at the first run that is long enough, or at null |
| `PhysFrames.Kmem.Unlink` | kernel/phys.cpp:54-86 | The list in memory is relinked to the shortened run list; memory outside free frames is untouched |
| `PhysFrames.Kmem.Alloc` | kernel/phys.cpp:54-100 | Out of memory exactly when the list is empty, a null frame exactly when no run fits, otherwise the last n frames of the first run that is long enough, zeroed |
| `PhysFrames.Kmem.InsertFrame` | kernel/phys.cpp:102-129 | The walk links the run in at its place, never before the head |
| `PhysFrames.Kmem.PatchUp` | kernel/phys.cpp:131-145 | The merging loop in memory does what Patch does on runs |
| `PhysFrames.Kmem.Release` | kernel/phys.cpp:102-151 | Exactly the given frames become free, the count and its maximum follow, allocated memory is untouched, and neighbours touch exactly if the run closed a gap |
| `PhysFrames.Kmem.FreeRange` | kernel/phys.cpp:153-189 | A range becomes free, spliced in behind the head |
| `FrameClients.CarveExact` | kernel/phys.cpp:102-151 | Giving back part of an allocation leaves its other frames out, and only those |
| `FrameClients.Grant` | kernel/phys.cpp:54-100 | Succeeds exactly if some run fits; what it hands out was free and overlaps nothing that is out |
| `FrameClients.TakeBack` | kernel/phys.cpp:102-151 | What is given back becomes free, and nothing else |
| `FrameClients.Serve` | kernel/phys.cpp:54-151 | In every run of allocations and releases, whole or in part, free and outstanding runs are pairwise disjoint, together they are the frames and the count there were, outstanding frames keep their contents, and an ascending tail stays ascending |
| `FrameClients.NoFit` | kernel/phys.cpp:54-86 | One free page and two wanted: the null frame |
| `PageTables.LinkTable` | arch/x86/paging.cpp:110-126 | Linking a zeroed table into the tree keeps the tree and changes no mapping |
| `PageTables.StoreLeaf` | arch/x86/paging.cpp:144-158 | Storing a leaf changes the mapping of its own address only |
| `PageTables.EncodeDecode` | arch/x86/mm.cpp:84-114 | Frame number (below 2^52) and write permission survive; execute permission reads as granted always, so it survives exactly when it was asked for |
| `PageTables.EncodedBits` | arch/x86/mm.cpp:84-104 | Every low bit of a leaf entry: present and user set, writable, write-through and dirty as asked for, all others clear, the frame above them |
| `PageTables.TableEntryFacts` | arch/x86/paging.cpp:115-121 | An entry for a table is present, writable and open to user code, and not a large page |
| `PageTables.Translates` | arch/x86/paging.cpp:78-130 | In every state of the tables the four-level walk of the processor finds exactly the leaf entry of each user page, and the tables above take away none of its rights |
| `PageTables.MappingGrants` | arch/x86/mm.cpp:84-104 | A mapping lets user code read the frame, write it if asked for, and always execute it |
| `PageTables.PageTable.constructor` | arch/x86/mm.cpp:55-67 | A new table maps nothing and carries the kernel entries up to the first empty one |
| `PageTables.PageTable.Descend` | arch/x86/paging.cpp:110-126 | One level down, making the missing table; fails only without free frames |
| `PageTables.PageTable.FindMapping` | arch/x86/paging.cpp:81-133 | The walk reaches the leaf table, changes no mapping, conserves frames and needs at most three |
| `PageTables.PageTable.Store` | arch/x86/paging.cpp:144-158 | The entry at the address is the one stored, every other is unchanged |
| `PageTables.PageTable.AddMapping` | arch/x86/mm.cpp:84-103 | Stores the entry, bit by bit, and the processor then translates the page to that frame with those rights; other mappings are unchanged |
| `PageTables.PageTable.GetMapping` | arch/x86/mm.cpp:104-114 | Returns the decoded entry and changes no mapping, although it may allocate |
| `PageTables.PageTable.DelMapping` | arch/x86/mm.cpp:115-120 | The entry is zero and the processor faults on the page; other mappings are unchanged |
| `PageTables.PageTable.Apply` | arch/x86/mm.cpp:84-120 | After any sequence of operations each address maps to what was last stored there, every lookup returned that, and three free frames per operation suffice |
| `PageTables.PageTable.FreePage` | arch/x86/paging.cpp:170-184 | Frees one table page exactly once |
| `PageTables.PageTable.FreeP2` | arch/x86/paging.cpp:170-184 | Frees exactly the tables below and itself |
| `PageTables.PageTable.FreeP3` | arch/x86/paging.cpp:186-203 | Frees exactly the tables below and itself |
| `PageTables.PageTable.FreeTable` | arch/x86/paging.cpp:205-215 | Every table page becomes free, no leaf page does |
| `PageTables.Create` | arch/x86/mm.cpp:79-82 | A new table costs one frame and maps nothing |
| `PageTables.Lifetime` | arch/x86/mm.cpp:68-82 | Create, use in any way, destroy: the free frames and their count are what they were |
| `Waitpid.FindZombie` | kernel/proc.cpp:533-629 | The first zombie the caller may reap |
| `Waitpid.FindWaiter` | kernel/proc.cpp:649-680 | The first waiter that may reap the process |
| `Waitpid.WaitRefuses` | kernel/proc.cpp:538-547 | A pid that is not in the process table, or a process group, is turned down and nothing changes |
| `Waitpid.WaitFinds` | kernel/proc.cpp:552-600 | Otherwise the first zombie that is a child of the caller and the one asked for is taken; without one the call returns if told not to hang, and else sleeps on the waiter list |
| `Waitpid.LeaveFinds` | kernel/proc.cpp:649-678 | A leaving process goes to the first waiter that is its parent and asks for it, which will be woken, or behind all other zombies |
| `Waitpid.ReapDoes` | kernel/proc.cpp:396-450 | A reap records the process, its reaper and its parent, and gives its children to process 1 |
| `Waitpid.StepInvariant` | kernel/proc.cpp:505-680 | Every step keeps: each process that left is in exactly one place, only parents hold it, the waiter list is exactly the empty-handed sleepers, and a waiter that caught something is awake or about to be woken |
| `Waitpid.Run` | kernel/proc.cpp:505-680 | So does every run |
| `Waitpid.FreshInvariant` | kernel/proc.cpp:505-680 | It holds before anyone waits or exits |
| `Waitpid.ReapedOnce` | kernel/proc.cpp:396-450 | In every run each process is reaped at most once, and by its parent |
| `Waitpid.WokenHasCaught` | kernel/proc.cpp:602-612 | A woken waiter has caught a process |
| `Waitpid.StepPair` | kernel/proc.cpp:505-680 | Every step but an orphaning reap keeps waiters and zombies that match from being both listed |
| `Waitpid.ReapPair` | kernel/proc.cpp:434-446 | A reap keeps that if and only if it leaves init no listed zombie that init waits for |
| `Waitpid.RunPair` | kernel/proc.cpp:505-680 | So no run without such a reap leaves a matching pair |
| `Waitpid.Stranded` | kernel/proc.cpp:434-446 | Seven steps from a fresh state leave init asleep, unwoken, beside the zombie it waits for |
| `Waitpid.Lists.constructor` | kernel/proc.cpp:505-528 | Starts with empty lists, where everything holds |
| `Waitpid.Lists.WaitPid` | kernel/proc.cpp:533-600 | The loop takes the first zombie the caller may reap off the list, or refuses, or joins the waiters; the invariants survive |
| `Waitpid.Lists.HandOver` | kernel/proc.cpp:649-680 | The loop hands the process to the first waiter that may reap it, or lists it; the invariants survive |
| `WaitQueue.CutExact` | kernel/wait.cpp:43-61 | A positive count wakes at most that many exclusive waiters and stops early only on the last of them; zero wakes all |
| `WaitQueue.OrderedWakesPlain` | kernel/wait.cpp:43-61 | Every positive count wakes all waiters that are not exclusive if and only if no exclusive one stands before them |
| `WaitQueue.PlainCut` | kernel/wait.cpp:43-61 | Without exclusive waiters everyone is woken |
| `WaitQueue.Queue.WakeUpCommon` | kernel/wait.cpp:43-61 | The loop takes exactly the entries up to the nr-th exclusive one off the list and sets their threads running |
| `WaitQueue.Queue.PrepareToWait` | kernel/wait.cpp:255-265 | Joins at the head and keeps the order |
| `WaitQueue.Queue.PrepareToWaitExclusive` | kernel/wait.cpp:267-277 | Joins at the tail and keeps the order |
| `WaitQueue.Queue.MultiWait` | kernel/wait.cpp:185-215 | An exclusive poller joins at the head: the order survives if and only if everyone else is exclusive |
| `WaitQueue.Queue.Finish` | kernel/wait.cpp:116-131 | Removes the entry if it is still linked, keeps the order of the others |
| `IpcSocket.Conserved` | net/ipcsock.cpp:111-177 | Received messages, then queued ones, are the accepted ones, in order |
| `IpcSocket.EndedForGood` | net/ipcsock.cpp:144-165 | After an end of stream nothing more is accepted or received, and everything accepted was received before |
| `IpcSocket.TryFindsMessage` | net/ipcsock.cpp:145-163 | A query tells the size of the first message and leaves it, whatever room there is; a receive takes the first message if it fits and leaves it if it does not |
| `IpcSocket.TryFindsNone` | net/ipcsock.cpp:163-167 | Without a message: the end of a closed direction, no waiting when told so, otherwise sleep |
| `IpcSocket.SendArrives` | net/ipcsock.cpp:113-130 | A send arrives behind all others and owes a wake-up, unless the direction is closed |
| `IpcSocket.StepInvariant` | net/ipcsock.cpp:80-177 | Every step keeps: what callers saw is what a queue used by one caller at a time shows; a receiver is on the wait queue exactly while it sleeps; nobody sleeps on a closed direction |
| `IpcSocket.Run` | net/ipcsock.cpp:80-177 | So does every run |
| `IpcSocket.FreshInvariant` | net/ipcsock.cpp:80-177 | It holds for a new socket |
| `IpcSocket.StepWake` | net/ipcsock.cpp:111-130 | A step keeps sleeping receivers beside a message covered by a pending wake if and only if it is not the last pending wake stopping at a poller |
| `IpcSocket.RunWake` | net/ipcsock.cpp:111-130 | So in every run without that, a receiver asleep on a non-empty direction is about to be woken |
| `IpcSocket.NoPollers` | net/ipcsock.cpp:111-130 | While nobody polls, it never happens |
| `IpcSocket.Delivered` | net/ipcsock.cpp:111-177 | In every run from a new socket, received then queued messages are the accepted ones |
| `IpcSocket.WakeDelivers` | net/ipcsock.cpp:134-177 | A pending wake brings a sleeping receiver back, and its call returns the first message, its size, or that it is too big |
| `IpcSocket.LostWake` | net/ipcsock.cpp:206-222 | Five steps with a poller leave a receiver asleep beside a message with no wake pending |
| `IpcSocket.RunSends` | net/ipcsock.cpp:113-130 | What was accepted from an end is a beginning of what it tried to send, and nothing after the close |
| `IpcSocket.OtherEnd` | net/ipcsock.cpp:113-136 | Each end receives on the direction the other sends on |
| `IpcSocket.BothWays` | net/ipcsock.cpp:80-177 | In every run, what one end has received and what is queued for it is a beginning of what the other end tried to send |
| `IpcSocket.Direction.constructor` | net/ipcsock.cpp:14-23 | Starts open and empty |
| `IpcSocket.Direction.Append` | net/ipcsock.cpp:115-124 | Appends exactly if open |
| `IpcSocket.Direction.Sendto` | net/ipcsock.cpp:111-130 | Returns the length or, when closed, 0 with nothing changed; in an ordered queue no plain waiter stays asleep |
| `IpcSocket.Direction.Disconnect` | net/ipcsock.cpp:80-89 | Closes and wakes every waiter |
| `IpcSocket.Direction.Receive` | net/ipcsock.cpp:140-168 | One turn of the loop is one attempt of the protocol: size to a query, the first message if it fits, an error if not, end, again, or asleep; in each case with the queue that leaves |
| `Brainfuck.Counts` | bin/bf/main.cpp:54-61 | n times + raises the cell by n, and n times - lowers it by n, modulo 256 |
| `Brainfuck.Moves` | bin/bf/main.cpp:48-53 | n times > or < moves the pointer by n, also out of the memory |
| `Brainfuck.OutOfRange` | bin/bf/main.cpp:54-72 | Using a cell out there is a fault |
| `Brainfuck.Echoes` | bin/bf/main.cpp:62-72 | A comma takes the next byte of the input, or 255 at its end, and a dot puts the cell out |
| `Brainfuck.Comments` | bin/bf/main.cpp:106-108 | Any other character does nothing |
| `Brainfuck.Clears` | bin/bf/main.cpp:73-105 | [-] leaves every cell at zero |
| `Brainfuck.Adds` | bin/bf/main.cpp:73-105 | [->+<] adds a cell to its right neighbour, modulo 256 |
| `Brainfuck.Inverses` | bin/bf/main.cpp:47-61 | + and - undo each other on every cell, and so do the moves |
| `Brainfuck.RoomEnough` | bin/bf/main.cpp:73-105 | Room for the depth of a program is as good as any more, and it is never too deep |
| `Brainfuck.Skips` | bin/bf/main.cpp:73-105 | A skipped program, loops in it included, is walked through without effect, or leaves the loop array if it nests deeper |
| `Brainfuck.Simulates` | bin/bf/main.cpp:38-112 | From any position and loop stack, the flat loop does what the nested program does, and outlasts any fuel the program outlasts |
| `Brainfuck.Stopped` | bin/bf/main.cpp:38-112 | A machine that stops within n steps stops where the program with fuel n says |
| `Brainfuck.StopsIff` | bin/bf/main.cpp:38-112 | The machine halts with some data, leaves its memory, or leaves its loop array if and only if the program does |
| `Brainfuck.DeepSkip` | bin/bf/main.cpp:73-86 | Skipping a loop nested deeper than the array leaves the array |
| `Brainfuck.BalancedIff` | bin/bf/main.cpp:73-105 | A text is balanced if and only if it is the text of a program |
| `Brainfuck.Interprets` | bin/bf/main.cpp:38-112 | All three equivalences for every balanced text followed by a non-command byte |
| `Brainfuck.InterpretsShallow` | bin/bf/main.cpp:38-112 | Nested at most 255 deep, the interpreter does what the program means, and never leaves the loop array |
| `Brainfuck.Interpreter.constructor` | bin/bf/main.cpp:26-31 | Starts at the beginning with any memory |
| `Brainfuck.Interpreter.Plain` | bin/bf/main.cpp:48-72 | One instruction on the memory array, or out of range |
| `Brainfuck.Interpreter.Enter` | bin/bf/main.cpp:73-86 | An opening bracket on the loop array, its two limits included |
| `Brainfuck.Interpreter.Leave` | bin/bf/main.cpp:88-105 | A closing bracket: back, on, end of a skip, or too many |
| `Brainfuck.Interpreter.Execute` | bin/bf/main.cpp:38-112 | Any number of turns of the loop does that number of machine steps |
| `VConsole.TypeFormed` | kernel/vconsole.cpp:226-263 | Typing keeps the cursor on the screen and never touches a row above it |
| `VConsole.PrintsAt` | kernel/vconsole.cpp:230-237 | A character from 32 to 126 lands in the cell at the cursor, or in the first of the next row, and changes no other cell |
| `VConsole.ControlKeys` | kernel/vconsole.cpp:241-252 | Return, newline, backspace and delete move the cursor, and delete blanks the cell it moves to |
| `VConsole.TabStops` | kernel/vconsole.cpp:253-262 | A tab goes to the next multiple of eight, counted on into the next row |
| `VConsole.DeleteUndoes` | kernel/vconsole.cpp:170-176 | Deleting what was typed over a blank gives the page back |
| `VConsole.PageIsLayout` | kernel/vconsole.cpp:226-243 | Printable text and newlines leave on the page exactly the lines of the text cut into rows, the cursor behind the last character |
| `VConsole.Console.constructor` | kernel/vconsole.cpp:193-222 | A new screen is blank |
| `VConsole.Console.Write` | kernel/vconsole.cpp:23-41 | Writes one cell in range, draws only changes unless forced, and the drawing calls still reproduce the buffer |
| `VConsole.Console.Update` | kernel/vconsole.cpp:43-45 | Redraws a cell and changes none; tells whether the source reads outside the buffer |
| `VConsole.Console.PastEnd` | kernel/vconsole.cpp:388-392 | The position is outside the buffer if and only if the cursor stands behind the last cell of the last row |
| `VConsole.FilledAtEnd` | kernel/vconsole.cpp:230-237 | On every screen a text of as many printable characters as there are cells ends there |
| `VConsole.Console.Shift` | kernel/vconsole.cpp:144-148 | The loop moves every cell up one row |
| `VConsole.Console.ClearLast` | kernel/vconsole.cpp:150-153 | The loop blanks the last row only |
| `VConsole.Console.ScrollUp` | kernel/vconsole.cpp:144-154 | The buffer becomes the last rows of the page with a blank row added |
| `VConsole.Console.LineFeed` | kernel/vconsole.cpp:156-163 | Moves down, scrolling at the bottom, as the page does |
| `VConsole.Console.Put` | kernel/vconsole.cpp:23-41 | A cell of the cursor row changes in the buffer as on the page |
| `VConsole.Console.Print` | kernel/vconsole.cpp:230-237 | A printable character, wrapping first when the row is full |
| `VConsole.Console.Delete` | kernel/vconsole.cpp:170-176 | Blanks the cell before the cursor, if any |
| `VConsole.Console.Tab` | kernel/vconsole.cpp:253-262 | Moves to the next multiple of eight, wrapping past the last column |
| `VConsole.Console.Feed` | kernel/vconsole.cpp:226-393 | For every character outside escape sequences the buffer stays the last rows of the unbounded page; the redraw reads outside the buffer exactly when the cursor moves to or from the place behind the last cell |
| `VConsole.Run` | kernel/vconsole.cpp:226-393 | A blank screen fed any such text shows the last rows of its page, and so does a display that followed the drawing calls |
| `Devicetree.SwapReverses` | kernel/devicetree.cpp:6-9 | The swap with its signed shifts reads four bytes in the other order |
| `Devicetree.SwapTwice` | kernel/devicetree.cpp:6-9 | Swapping twice changes nothing |
| `Devicetree.Decode` | kernel/devicetree.cpp:188-243 | Every token moves the cursor on by at least a word, so the walk ends |
| `Devicetree.FieldLayout` | kernel/devicetree.cpp:35-39 | The bytes of a property: 3, length, name offset, value, zeros up to a word, numbers high byte first |
| `Devicetree.ChildLayout` | kernel/devicetree.cpp:35-39 | The bytes of a node: 1, name, a zero byte, zeros up to a word, contents, 2 |
| `Devicetree.BareLayout` | kernel/devicetree.cpp:35-39 | The bytes of a NOP and of the end: 4 and 9 |
| `Devicetree.NameSplits` | kernel/devicetree.cpp:52-79 | A name is cut at its first @ and the rest is the unit address; without one it fills at most 32 bytes |
| `Devicetree.OneTooMany` | kernel/devicetree.cpp:188-245 | One node end too many leaves the root, after which only NOPs and the end of the block are taken |
| `Devicetree.DecodeProp` | kernel/devicetree.cpp:224-234 | A property is read back whatever its value looks like |
| `Devicetree.DecodeBegin` | kernel/devicetree.cpp:200-205 | A node name is read back and its padding skipped |
| `Devicetree.WalkBuilds` | kernel/devicetree.cpp:188-244 | Walking over the bytes of any document, NOPs included, builds its nodes and ends at the node it started from |
| `Devicetree.BuildFrame` | kernel/devicetree.cpp:206-213 | Building below a node changes no other existing node, and adds its properties in order |
| `Devicetree.BuildHolds` | kernel/devicetree.cpp:206-213 | The table holds the nodes in document order with parent and sibling links |
| `Devicetree.HoldsReads` | kernel/devicetree.cpp:148-171 | Following child and sibling links finds the children, last one first |
| `Devicetree.ParseInverts` | kernel/devicetree.cpp:173-248 | Parsing a flattened document of at most 63 nodes gives back its tree under an unnamed root, every list of children reversed, each property at its own node, and ends at the root |
| `Devicetree.Parser.constructor` | kernel/devicetree.cpp:46-50 | Starts with an empty table |
| `Devicetree.Parser.AllocDevice` | kernel/devicetree.cpp:52-79 | A new node whose name ends at the first @, the unit address behind it |
| `Devicetree.Parser.StrLen` | kernel/devicetree.cpp:203-203 | The first zero byte, if there is one |
| `Devicetree.Parser.NextToken` | kernel/devicetree.cpp:188-243 | Reads the token the format has there, or runs past the blob |
| `Devicetree.Parser.Enter` | kernel/devicetree.cpp:199-243 | Links, leaves or extends the current node in the table |
| `Devicetree.Parser.Parse` | kernel/devicetree.cpp:173-248 | The loop fills the table exactly as the walk over tokens does, failures included |
| `Md5.Four` | bin/core/md5.c:72-138 | Four unrolled steps with their changed registers are four steps of the definition |
| `Md5.FirstRound` | bin/core/md5.c:72-87 | The first sixteen lines, with their words, shifts and constants, are steps 0 to 15 |
| `Md5.SecondRound` | bin/core/md5.c:89-104 | The next sixteen are steps 16 to 31 |
| `Md5.ThirdRound` | bin/core/md5.c:106-121 | The next sixteen are steps 32 to 47 |
| `Md5.FourthRound` | bin/core/md5.c:123-138 | The last sixteen are steps 48 to 63 |
| `Md5.WordRoundTrip` | bin/core/md5.c:64-65 | Reading a word and writing it out gives back its bytes |
| `Md5.PaddedWhole` | bin/core/md5.c:169-197 | A padded message is a whole number of blocks |
| `Md5.PaddingInjective` | bin/core/md5.c:169-197 | Messages below 2^61 bytes are told apart by their padded forms |
| `Md5.FoldAdd` | bin/core/md5.c:155-167 | Hashing one more block at the end is one more transform |
| `Md5.OneBlock` | bin/core/md5.c:175-178 | A tail below 56 bytes is padded within its block |
| `Md5.TwoBlocks` | bin/core/md5.c:179-185 | A longer tail takes a second block |
| `Md5.Context.constructor` | bin/core/md5.c:146-153 | Has been fed nothing |
| `Md5.Context.Transform` | bin/core/md5.c:58-144 | The state becomes the compression of the buffered block |
| `Md5.Context.Push` | bin/core/md5.c:158-166 | One byte more has been fed |
| `Md5.Context.Update` | bin/core/md5.c:155-167 | A piece more has been fed |
| `Md5.Context.Pad` | bin/core/md5.c:174-182 | The marker and zeros behind the tail |
| `Md5.Context.ZeroFront` | bin/core/md5.c:184-184 | Zeros before the length |
| `Md5.Context.StoreLength` | bin/core/md5.c:187-196 | The length in bits, low byte first |
| `Md5.Context.Final` | bin/core/md5.c:169-207 | The digest of everything fed, through either padding branch, the length modulo 2^64 |
| `Md5.Hash` | bin/core/md5.c:231-236 | However a message is cut, the digest is that of the whole |
| `Md5Vector.AbcDigest` | bin/core/md5.c:28-57 | The digest of "abc", through every step, is the one RFC 1321 lists |
| `Tty.StepDelivers` | fs/tty.cpp:181-221 | A key delivers nothing or the whole line, which is then empty |
| `Tty.RunDelivers` | fs/tty.cpp:96-221 | In every run the input grows by whole lines: ended by a delimiter, or non-empty and sent by the end-of-file key |
| `Tty.Independent` | fs/tty.cpp:96-221 | What was delivered before makes no difference to what is delivered next |
| `Tty.EraseIff` | fs/tty.cpp:171-179 | A byte and the erase key cancel if and only if the byte is ordinary, or the line is empty and the byte neither ends it nor quotes the erase key |
| `Tty.EraseAnywhere` | fs/tty.cpp:96-243 | Such a pair can be left out anywhere outside a verbatim escape |
| `Tty.Corrections` | fs/tty.cpp:96-243 | Any number of corrections, nested or not, leave line and delivery unchanged |
| `Tty.KillUndoes` | fs/tty.cpp:162-169 | Any text without line-ending keys, then the kill key, leaves an empty line and delivery unchanged |
| `Tty.EditedLine` | fs/tty.cpp:171-190 | Reading the keys backwards and counting erases finds the line that typing left |
| `Tty.EditedDelivery` | fs/tty.cpp:190-207 | Ending the line delivers those bytes and the ending byte |
| `Tty.KeysDo` | fs/tty.cpp:154-188 | By the settings alone: kill empties the line, erase takes its last byte, end-of-file delivers it, the literal-next key has any byte taken as it is |
| `Tty.TextDoes` | fs/tty.cpp:109-207 | Text is added to the line, the end of the line delivers it with the ending byte, signal keys drop it |
| `Tty.ReturnEndsLine` | fs/tty.cpp:141-152 | With ICRNL a carriage return ends the line as a newline does |
| `Tty.Flags` | fs/tty.cpp:136-152 | What ISTRIP, IGNCR, ICRNL and INLCR make of a byte that is delivered at once |
| `Tty.TypedLine` | fs/tty.cpp:154-207 | Text typed with any erases arrives, whole, as it stood when newline or end-of-file ended it; kill leaves nothing of it |
| `Tty.ResetUsable` | fs/tty.cpp:16-33 | The settings a terminal starts with give each key one meaning |
| `Tty.Terminal.constructor` | fs/tty.cpp:39-41 | Starts with an empty line |
| `Tty.Terminal.DumpInputBuffer` | fs/tty.cpp:216-221 | The loop delivers the line in order and empties it |
| `Tty.Terminal.EraseOne` | fs/tty.cpp:223-243 | The last byte of the line goes, if there is one |
| `Tty.Terminal.EditLine` | fs/tty.cpp:154-208 | A translated byte does to the line what its class says |
| `Tty.Terminal.HandleInput` | fs/tty.cpp:96-214 | A typed byte: verbatim, signals, translation, then editing or raw delivery, in that order |
| `Clock.FitsIff` | kernel/time.cpp:24-28 | The product fits 64 bits for every count of cycles up to the rate if and only if the rate is at most 18446744073 |
| `Clock.Accurate` | kernel/time.cpp:46-69 | A reading is the second plus the share of it that has gone by, a whole one at most, to the nanosecond |
| `Clock.RisesIff` | kernel/time.cpp:24-28 | For every rate below 2^64, nanoseconds rise with cycles if and only if the rate is at most 18446744073 or above 2^64 - 512 |
| `Clock.SecondIff` | kernel/time.cpp:46-69 | For those rates and no others, readings within a second never go back |
| `Clock.TooFast` | kernel/time.cpp:24-28 | One cycle above the limit, a concrete reading goes back |
| `Clock.Bounds` | kernel/time.cpp:46-69 | A reading lies between its second and the next |
| `Clock.SameSecond` | kernel/time.cpp:46-69 | Within a second readings do not go back |
| `Clock.HandlerStores` | kernel/time.cpp:88-98 | The stores of the handler one by one are the handler |
| `Clock.BehindIff` | kernel/time.cpp:46-69 | A reading is below an earlier one if and only if the cycles since the second began fall short of it |
| `Clock.BackIff` | kernel/time.cpp:30-98 | In every run with rising timestamps, seconds that do not fall and readings between any two stores, readings never go back if and only if none is taken between the last two stores too soon |
| `Clock.NeverBack` | kernel/time.cpp:30-98 | So they never go back when none is taken between the last two stores |
| `Clock.TornReading` | kernel/time.cpp:88-95 | A concrete run goes back by almost a second |
| `Clock.Timekeeper.TimeKeep` | kernel/time.cpp:81-98 | A new second starts a new cycle count, and the rate is the length of the last one |
| `Clock.Timekeeper.Read` | kernel/time.cpp:30-69 | Reads as the formula says, within its second; nothing while the rate is unknown |

## Left out

- Kconfig choices, string, int and hex symbols, warnings, menus and drawing, file handling and macros: more cases without a harder argument.
- KconfigSymbols.Kconfig.SetValue: takes numbers; the source also takes n, m and y as strings, and records `_was_set`, which nothing in the model reads.
- The dirty channel is unbounded in the model; the source sends through a fixed-size fifo, and what happens when it is full is not modelled.
- BlockIo.BufferCache.BlockRw: one thread at a time; interleavings are in BlockCache, where a transfer within one page is the unit.
- Block devices whose block size does not divide the page, and I/O errors.
- Low-memory reclaim inside `phys::alloc`, and the early allocator before the free list exists.
- PhysFrames.Kmem.Release: frames must not be free already; the source does not check for double frees.
- FrameClients.Serve: requests for no frames at all are turned down.
- Large and huge pages: `find_mapping` is only called for 4 KiB pages here, so the large-page branches of the freeing functions are never met.
- PageTables.PageTable.Apply: virtual pages below 2^35 (the user half) and frames below 2^52; kernel-half entries are shared and not part of the flat map. The translation cache is not modelled.
- PageTables.EncodeDecode: the `nocache` and `writethrough` attributes are stored but the source never reads them back.
- Waits in `waitpid` that are interrupted: the source leaves the waiter linked, and the model has no such step. Stopped processes and wait status words are not modelled either.
- `wake_up_common` with a count of zero relies on the counter not wrapping; the model's counter is unbounded.
- Accepting and connecting sockets, and the binding of socket files; the numeric codes returned by `recvfrom` (a zero-length message and an end of stream both return 0).
- WaitQueue.Queue.MultiWait: one queue; the source joins several at once under all their locks.
- IpcSocket: pollers appear as entries of the wait queue; what `awaitfs` does around them is not modelled, nor are signals beyond interrupting a receive.
- Brainfuck.Interpreter.Execute: runs a given number of turns, since a program may run for ever.
- Brainfuck.Interprets: the byte behind the text, which the source also executes, is a parameter and no command. What happens after the interpreter has left an array is not modelled.
- VConsole.Console.Feed: no escape sequences (colours, cursor movement, erasing), and tabs need at least eight columns. The cursor flag of drawing calls is not modelled.
- Devicetree.ParseInverts: properties are recorded as name offset and value; decoding of `reg`, `compatible` and the cell counts is not modelled, nor is the second parser in the same file. Names whose @ lies beyond the 32-byte name field are turned down by the model, since the source writes outside the field. A property length within three of 2^32 is turned down as reaching past the blob.
- Devicetree.Parser.AllocDevice: keeps the unit address as bytes, not as the number scanned from them.
- Devicetree.Decode: words are integers; that the source's swap yields them is SwapReverses, on bit vectors.
- Md5.Context.Final: the output loop is the function Output; message digests of files are read in `main`, which is not modelled.
- Tty.Terminal.HandleInput: no echo, and signals only clear the line. Typed bytes and control characters are compared as unsigned bytes; the source compares a plain char.
- Clock.Timekeeper.Read: returns nothing where the source waits for the rate to be known, and leaves out architectures with their own clock function.
- Clock.BackIff: a reading is one step; the loads inside `now_ns` are not interleaved. Rates are at most 18446744073 whenever the clock is read; SecondIff says what happens above.
- Everything else in the repository: drivers, traps, the scheduler itself, file systems, ELF loading, libraries and applications.
