# TinyActor runtime: a verified model

TinyActor is an actor runtime written in C: a bytecode machine whose actors each
own one memory block (heap growing up, stack growing down), a copying collector,
mailboxes, a pool of workers with an I/O poller, and resources that belong to
exactly one actor. This project models the parts of it that are hard to get right
and proves what they promise, for every input, every reachable state and every
interleaving.

`dafny verify dfyconfig.toml` checks everything.

## How the model is laid out

| file | what it covers |
|---|---|
| `Heap.dfy`, `Graph.dfy` | values, objects and sizes; renamings, reachability and graph isomorphism |
| `Cheney.dfy`, `Proc.dfy` | the collector's invariant; a process with its block, stack, allocator, collector and callback window |
| `Converge.dfy` | copying a callback's result out of its chunks |
| `CallStack.dfy` | CALL, TCALL and RET on one flat stack, against a stack of frames |
| `Message.dfy`, `Delivery.dfy` | sizing, copying and rebuilding messages; a whole send and receive with the change of owner |
| `Ownership.dfy`, `Resource.dfy` | the ownership protocol; the operations on resource headers |
| `Scheduler.dfy`, `Shutdown.dfy` | workers, wakers and poller; the ring buffer of the run queue; bounded draining and the end of the pool |
| `Mailbox.dfy`, `Monitor.dfy`, `Timer.dfy` | selective receive; monitors; timers |
| `Symbols.dfy` | hashed symbol and C-function index |
| `Sexp.dfy`, `Codec.dfy`, `Strings.dfy` | reader against printer; byte codecs (sections 4, 5 and 8 of RFC 4648, section 2.1 of RFC 3986); split, join and replace |

Code that updates a structure in place is a class with the same fields and the same
loops. Each method is tied to a specification function or to a property of the new
state. Concurrent code is a state machine with one action per locked section, and the
results are about all runs of it.

Conventions used throughout:

- Memory is modelled at object granularity. A reference is a buffer number and the byte
  offset of an object; offsets and sizes are the allocator's. Buffers 1 and 2 are the two
  semispaces, 3 and up the callback chunks, 0 everything outside the process.
- The two stacks of a process, of values and of frames, are kept apart: `Proc.dfy` has the
  bytes, the gap to the heap and the moving of slots, `CallStack.dfy` has what the slots
  mean. `CollectionMoves` says that a collection of the one is a memory change of the other.
- Where the C code aborts the program (arena exhausted, call of a non-function), the model
  returns `ok == false` or `Died`, and the contracts of the stack and the allocator say exactly when.
- Integers are unbounded, except for the 48-bit range of the reader, which is written out.

Some properties do not hold in general, and the model says exactly when they do:

- A plain receive does not move the cursor of a selective receive. Whatever arrives later,
  every message not looked at stays in reach if and only if the scan has not begun
  (`PopKeepsCursor`, tied to the mailbox by `PopThen`). `LookTakeLook` passes over a message;
  in `SleepsOnMessage` the actor goes to sleep on one it has never looked at. Sessions without
  such a mix are safe (`Serve`).
- A commit removes the message looked at last if and only if no plain receive came in between
  (`Commit`). Otherwise it drops another message or reads past the end of the list
  (`CommitDropsOther`, `CommitPastEnd`). Dropping a message is harmless for its resources if
  and only if it owns none (`CommitExact`).
- The fast and the general tail call leave the same stack if and only if the continuation
  slots hold integers (`FastIsGeneral`). The entry frame's slots hold nil. Nothing reads
  them, so both forms still stand for the same frames (`TailStands`).
- Not every accepted base64, hex or percent text is the encoding of its bytes
  (`Base64Canonical`, `HexCanonical`, `PercentCanonical`), and not every printed tree reads
  back (`ReadBack`): strings are printed raw, and no tree with one does (`StringsLost`).

## Model

| member | source | states |
|---|---|---|
| `Heap.AllocSize` | ta_inline.h:462-465 | An allocation is aligned, at least as large as requested, never too small for a forwarding pointer and never more than the rounding larger |
| `Graph.ClosedHoldsReachable` | src/gc.c:105-144 | A set that holds the roots and is closed under references holds everything reachable |
| `Graph.IsoTransitive` | src/gc.c:161-263 | Two moves in a row are one move: contents and sharing are kept by the composition |
| `Graph.IsoAgree` | ta_inline.h:637-653 | Two images of one graph are isomorphic to each other |
| `Process.PathsAgree` | ta_inline.h:637-653 | Of two processes in the same state one leaves the callback on the fast path, the other on the slow one: stacks and results together are isomorphic |
| `Cheney.SubsetFits` | src/gc.c:76-82 | Distinct objects drawn from a list are together no larger than the list, so copying each object once cannot outgrow the heap |
| `Cheney.CopyKeeps` | src/gc.c:65-91 | Copying one more reachable object and leaving a forwarding mark keeps the collector invariant |
| `Cheney.ChildScanned` | src/gc.c:105-144 | Translating one field of one copy keeps the collector invariant |
| `Cheney.ScanDone` | src/gc.c:105-144 | A finished scan has copied exactly the reachable objects, each once; the copies are the whole new space and mirror contents and sharing |
| `Cheney.Finished` | src/gc.c:203-216 | After the scan the new space is laid out back to back, isomorphic to what was reachable, points nowhere into the old space, and is no larger than the old one |
| `Cheney.DeadPayloadsExact` | src/gc.c:247-251 | A payload is released if and only if an uncopied header owned by this process holds it |
| `Process.GrowTarget` | src/gc.c:166-185 | Doubling up to the cap: the result is too small exactly when the cap is, does not change if nothing is needed, and stays below twice the need |
| `Process.ShiftKeepsStack` | ta_inline.h:253-262 | Moving the stack to the high end of another block keeps the value of every slot |
| `Process.Proc.CopyObj` | src/gc.c:65-91 | Copies an object or returns its earlier copy; the room check in it can never fail |
| `Process.Proc.CopyVal` | src/gc.c:93-103 | A value is rewritten exactly when it refers into a source space |
| `Process.Proc.ScanTospace` | src/gc.c:105-144 | The scan reaches the end with every copy fully translated, although copies are appended while it runs |
| `Process.Proc.ForwardStack` | src/gc.c:203-213 | Every stack slot is mapped to the image of what it held |
| `Process.Proc.Collect` | src/gc.c:161-263 | Succeeds exactly when heap, extra room and deepest reserved frame fit under the cap; then the new heap is the image of what the roots reached, the room exists, the spare space is not larger than the block, and exactly the dead owned payloads are released. On failure nothing changes |
| `Process.Proc.Swap` | src/gc.c:218-239 | Exchanging the semispaces carries the stack over, leaves the heap below the deepest slot, and leaves the old space walkable |
| `Process.Proc.GcCollect` | src/gc.c:146-146 | A plain collection is invisible to the stack: the same graph, a heap no larger than before |
| `Process.Proc.Release` | src/resource.c:66-81 | A payload is destroyed at most once; releasing again changes nothing |
| `Process.Proc.ReleaseSpace` | src/resource.c:222-242 | The walk lands on each object start once, ends exactly at the old top although forwarding has overwritten length fields, and releases the uncopied owned payloads in order |
| `Process.Proc.constructor` | src/scheduler.c:351-408 | A new process, with a cap as ta_inline.h:187-208 makes it, is valid: empty stack, no objects, no block |
| `Process.Proc.EnsureHeap` | ta_inline.h:278-284 | First use gives the idling block and an unchanged stack |
| `Process.Proc.ArenaGrow` | ta_inline.h:238-264 | Succeeds exactly on an empty heap whose need lies between the block and the cap; every stack slot keeps its value |
| `Process.Proc.Push` | ta_inline.h:302-327 | Pushes onto the stack and keeps heap and stack apart; aborts exactly when neither the gap nor growing an empty heap helps |
| `Process.Proc.Pop` | ta_inline.h:329-333 | Undoes a push |
| `Process.Proc.StackReserve` | ta_inline.h:341-363 | After it the heap lies above the reserved frame and the stack sees the same graph; it aborts exactly when gap, growth and collection all fail, so the second gap check is dead |
| `Process.Proc.ReserveHeap` | ta_inline.h:527-543 | Afterwards the promised bytes are free; aborts exactly when gap and cap are too small |
| `Process.Proc.GcDrain` | ta_inline.h:437-442 | A pending collection cannot fail, so ignoring its result is sound; afterwards none is pending and the next is due at twice the live heap or the minimum; with the gate closed nothing moves |
| `Cheney.LiveIs` | src/gc.c:203-239 | What a collection leaves is exactly the bytes of the reachable objects |
| `Process.Proc.MakeRoom` | ta_inline.h:675-708 | Honours a request, then fails exactly when what is left above the live (or, without a request, the present) heap is too small and the gate is closed or the cap too low; with the gate closed nothing moves and the request stays noted, with it open none is left |
| `Process.Proc.HeapAlloc` | ta_inline.h:655-713 | Under exactly that condition: a new object apart from all others, the rest of the graph unchanged up to moving, and heap and stack still apart with slack |
| `Process.Proc.Cons` | src/vm.c:880-899 | The new pair holds the moved operands even if the allocation collected in between |
| `Process.Proc.OpenWindow` | ta_inline.h:547-557 | A callback starts with one empty chunk and the gate closed |
| `Process.Proc.ChunkAlloc` | ta_inline.h:562-581 | The object goes to the end of the last chunk if it fits there and into a new chunk that is large enough otherwise; no chunk is filled beyond its capacity, no other object is disturbed, and the arena total is exactly the sum of the sizes |
| `Converge.ConvKeeps` | src/val.c:356-480 | The recursive copy rebuilds each chunk object at most once and yields the image of the value |
| `Converge.CopyBounded` | src/val.c:356-480 | However much the result shares, the copy needs at most the arena total |
| `Converge.ExpandMeaning` | src/val.c:356-480 | Replacing a value on the work stack by a marker and its children does not change what the stack stands for |
| `Converge.ConvergeIso` | src/val.c:356-480 | The rebuilt graph is isomorphic to heap plus chunks, with sharing kept |
| `Process.Proc.ConvergeCopy` | src/val.c:356-480 | The loop with two explicit stacks computes the recursive copy, ends, and every allocation in it fits |
| `Process.Proc.FastConverge` | ta_inline.h:642-648 | Nothing in the heap moves, at most the arena total is added, and stack and result see the same graph |
| `Process.Proc.SlowConverge` | src/gc.c:153-159 | One collection over heap and chunks promotes exactly what is reachable; it fails exactly when heap and arena exceed the cap |
| `Process.Proc.CloseWindow` | ta_inline.h:637-653 | On every path the caller sees the graph it had, nothing refers into a chunk, and at most the arena total is added; aborts exactly when neither path has room |
| `CallStack.FidOfPc` | src/main.c:455-464 | The function whose code holds the pc, or none if there is none |
| `CallStack.BelowKept` | src/vm.c:957-1121 | Whatever runs above a depth leaves every frame below it as it was, but for the moves of the collector |
| `CallStack.CallReturns` | src/vm.c:986-1121 | A call, any run of the callee with collections at any point, and its return bring back the caller's pc, base, code base, depth and call chain, less the call block |
| `CallStack.FastIsGeneral` | src/vm.c:1020-1076 | The self-call fast path leaves the stack of the general path if and only if the continuation slots hold integers |
| `CallStack.ReturnStands` | src/vm.c:1096-1121 | The three continuation slots are exactly the registers of the frame below; base 0 is exactly the entry frame |
| `CallStack.CallStands` | src/vm.c:986-1019 | Pushing the continuation puts a new frame on the frame stack |
| `CallStack.TailStands` | src/vm.c:1020-1076 | Both forms of a tail call replace the top frame and nothing else |
| `CallStack.LoadStands` | src/vm.c:600-604 | Where the flat stack stands for the frames, slot i of the top frame is what lies at base + i, and a load leaves the stack as it is |
| `CallStack.StoreStands` | src/vm.c:605-609 | A store into slot i of the top frame is a store at base + i alone; the continuation and every other frame survive |
| `CallStack.PushStands` | src/vm.c:620-625 | A push onto the top frame is a push onto the flat stack |
| `CallStack.DropStands` | src/vm.c:674-696 | Taking operands off the top frame is taking them off the flat stack |
| `CallStack.StoreThenLoad` | src/vm.c:600-609 | A load after a store gives the stored value if it names the same slot and what was there before otherwise |
| `CallStack.ArgumentsArrive` | src/vm.c:957-1076 | What a call or tail call passes the callee loads: slot i holds the i-th value of the block, the accumulator last |
| `CallStack.CollectionMoves` | src/gc.c:203-213 | A collection of the stack is a memory change that keeps what the frames reach |
| `CallStack.CollectionInvisible` | src/gc.c:203-213 | Such a change leaves frames, registers and call chain as they were, with the values renamed |
| `CallStack.Machine.Adopt` | src/vm.c:657-672 | The machine goes on in the changed memory for the same frames |
| `CallStack.Machine.constructor` | src/scheduler.c:418-430 | The first frame stands for one frame at the function's entry |
| `CallStack.Machine.DoPush` | src/vm.c:620-625 | The accumulator goes on top of the flat stack; the same as a push onto the top frame |
| `CallStack.Machine.DoReserve` | src/vm.c:657-672 | The nils go on top of the flat stack; the same as new locals of the top frame |
| `CallStack.Machine.DoLoad` | src/vm.c:600-604 | The accumulator becomes what lies at base + i on the flat stack; the same as reading that slot of the top frame |
| `CallStack.Machine.DoStore` | src/vm.c:605-609 | Slot base + i of the flat stack takes the accumulator and no other slot changes; the same as writing that slot of the top frame |
| `CallStack.Machine.DoDrop` | src/vm.c:674-696 | The operands go off the top of the flat stack and the accumulator takes the result; the same on the top frame |
| `CallStack.Machine.DoJump` | src/vm.c:928-938 | The pc becomes an offset from the code base and nothing else changes |
| `CallStack.Machine.DoReturn` | src/vm.c:1096-1121 | Ends the run exactly at base 0; otherwise the stack is cut at the base, pc, base and code base come out of the three continuation slots, and that is the caller's frame |
| `CallStack.Machine.DoCall` | src/vm.c:957-1019 | Dies exactly if the value is not callable with that many arguments; a function finds the flushed block with its continuation on top and the registers at its entry, a native function leaves its result instead of the block; the same as on frames |
| `CallStack.Machine.CopyDown` | src/vm.c:1063-1064 | The slot-by-slot copy never reads a slot it has overwritten |
| `CallStack.Machine.DoTailCall` | src/vm.c:1020-1076 | The same with the frame replaced in place: the block lies at the old base, the old continuation behind it, and the base stays |
| `CallStack.Machine.Run` | src/vm.c:957-1121 | Every run of the flat machine, with allocations and collections at any point, is the run of the frame machine, to the same end and the same memory |
| `CallStack.Machine.WalkStack` | src/main.c:470-492 | The walk ends and returns the chain of function ids, leaf first, cut at the depth limit |
| `Message.RepUnique` | src/scheduler.c:131-232 | A value has at most one tree unfolding |
| `Message.Unfold` | src/scheduler.c:131-232 | Every acyclic value has one |
| `Message.Measured` | src/scheduler.c:76-118 | The sizing loop (also the one at src/val.c:307-343) gives the sum over the unfolding and reports a resource exactly when there is one |
| `Message.Fragment.Place` | src/scheduler.c:131-232 | A new object lies aligned and apart from all others |
| `Message.Fragment.Copy` | src/scheduler.c:131-232 | The two-stack loop writes a copy with the same unfolding into exactly the computed size, and the copy refers only to the fragment |
| `Message.DeepCopy` | src/val.c:165-304 | The rebuilt value has the same unfolding and takes exactly the computed bytes, so no allocation fails; nothing else moves |
| `Message.Receive` | src/scheduler.c:291-307 | Aborts exactly when gap and cap leave no room; otherwise the message arrives with its unfolding and the receiver's own graph is unchanged |
| `Resource.GivenRep` | src/resource.c:159-165 | The tree of a value whose headers were rewritten is the old tree with the owners replaced; `GivenPayloads` and `GivenAlike` say what that keeps |
| `Resource.GivenOwned` | src/scheduler.c:271-279 | Every header of a rewritten value names the new owner |
| `Resource.FoundPayloads` | src/resource.c:104-150 | The headers found in a value hold the payloads of its tree, place by place |
| `Resource.GivenPayloads` | src/resource.c:159-165 | A hand-over keeps every payload of the tree in its place |
| `Resource.GivenAlike` | src/resource.c:159-165 | A value and the one handed over differ in nothing but owners: the same immediates, characters, bytes, entries and payloads in the same places |
| `Delivery.Send` | src/scheduler.c:243-287 | Refused exactly if it carries resources and the check fails, dropped exactly if the target is dead. A queued message is, but for owners, the value that was sent, in a fragment exactly as large as computed; the sender's own headers change owner too and keep their payloads; nothing else of the sender's heap changes |
| `Delivery.Trip` | src/scheduler.c:243-307 | Sender to fragment to receiver: the message arrives exactly when its bytes fit. Then nothing but owners tells it from the value sent: the payloads found in it are those of the original, position by position, and every header is the receiver's; without resources the sender's graph is untouched |
| `Ownership.DropKeeps` | src/resource.c:222-242 | Releasing and dropping headers of one actor keeps one owner per live payload |
| `Ownership.SendKeeps` | src/scheduler.c:243-287 | A send keeps the invariant; what it moves is `SendMoves` |
| `Ownership.SpawnKeeps` | src/vm.c:153-188 | So does a spawn; what it moves is `SpawnMoves` |
| `Ownership.FailedSpawnKeeps` | src/val.c:242-290 | A spawn that fails half way leaves no owned copy behind |
| `Ownership.CloseKeeps` | src/resource.c:66-93 | A close keeps the invariant; what it does is `CloseRuns` |
| `Ownership.StepKeeps` | src/resource.c:57-198 | Every step of create, close, collect, send, receive, spawn, death and teardown keeps the invariant |
| `Ownership.CreateOwns` | src/resource.c:38-55 | A new payload has not run and is owned by a header in its creator's heap; no other payload is touched |
| `Ownership.CloseRuns` | src/resource.c:66-93 | Closing a header of one's own runs the destructor, once, empties the header and leaves the payload without owner; closing another's does nothing; every other payload keeps its count and its owner |
| `Ownership.DroppingRuns` | src/resource.c:222-242 | A collection, a death or a teardown lets go of exactly the headers not reached, in the mail or in the heap: of their payloads those owned have run once and have no owner, every other payload and header stays |
| `Ownership.SendMoves` | src/scheduler.c:243-287 | An admitted send makes every payload it carries the property of a new header in the receiver's mailbox, all in one message; every other payload keeps its count and owner; a refused send changes nothing |
| `Ownership.SpawnMoves` | src/vm.c:153-188 | A spawn with admissible resources makes them the living child's; any other leaves a dead child that owns nothing, and no payload changes hands |
| `Ownership.ReceiveTakes` | src/scheduler.c:291-307 | A receive moves the headers of its message into the heap, owners and payloads as they are, and touches no other header |
| `Ownership.DeathReleases` | src/scheduler.c:588-611 | A death can always be carried to its end; then the actor holds nothing, what it owned has been released once, and every other payload is as it was |
| `Ownership.CanEnd` | src/api.c:279-296 | No state is a trap: every run can go on, through the deaths begun, a stop and teardown, until every actor is gone and each destructor has run exactly once |
| `Ownership.Safe` | src/resource.c:57-198 | In every run a live payload has exactly one owned header, an owned header never refers to a freed payload, and no destructor runs twice |
| `Ownership.NothingLeaks` | src/scheduler.c:588-611 | Once every actor is gone each destructor has run exactly once |
| `Ownership.CommitExact` | src/builtin.c:77-100 | A commit frees its message without releasing: the invariant survives if and only if no header in the message owns a live payload |
| `Ownership.TeardownEnds` | src/api.c:279-296 | Every run that has stopped goes on by tearing down what is left, and ends with every actor gone and each destructor run exactly once |
| `Resource.CollectResources` | src/resource.c:104-150 | The work list finds the headers of the value tree, in order |
| `Resource.FoundHeaders` | src/resource.c:152-157 | Everything found is a header, and there are as many as the unfolding has |
| `Resource.SendCheck` | src/resource.c:176-198 | A send is admitted if and only if there is a resource, the sender is a process other than the target, all headers are its own and no payload occurs twice |
| `Resource.CheckIsCarriable` | src/resource.c:176-198 | That check is the condition the protocol's sends rest on, in both directions |
| `Resource.SetOwner` | src/resource.c:159-165 | Every header of the tree names the new owner and keeps its payload; every other object is as it was |
| `Resource.GivenFrame` | src/resource.c:159-165 | Changing owners keeps kinds, children and sizes, so a packed fragment stays packed |
| `Resource.ReleaseTree` | src/resource.c:167-174 | Exactly the owner's headers of the tree are emptied, every other object is as it was, and their payloads are released in order |
| `Resource.ReleasedExact` | src/resource.c:167-174 | A payload is released if and only if a header of that owner in the tree holds it |
| `Resource.ReleasedOnce` | src/resource.c:167-174 | Nothing is released twice when no two headers share a payload |
| `Scheduler.RunStepKeeps` | src/scheduler.c:927-947 | Yielding, dying, blocking and parking keep the scheduling invariant |
| `Scheduler.WokenKeeps` | src/scheduler.c:741-792 | Waking starts from a listed wait that nobody holds |
| `Scheduler.RegisterKeeps` | src/scheduler.c:638-652 | Registering after the state change keeps the invariant, whatever ran in between |
| `Scheduler.StepKeeps` | src/scheduler.c:280-346 | Every step of workers, senders, wakers and poller keeps the invariant; where each step takes its process is `StepEffect` |
| `Scheduler.StepEffect` | src/scheduler.c:280-346 | Every step takes its process to the one place it should be in: a message, a poll result of the current generation and a timeout make a waiting process Running in the waker's hands; the waker takes it off the wait list, then puts it at the end of the queue; a worker takes the head; blocking, parking and dying leave it waiting on the list, parked or dead |
| `Scheduler.OthersStay` | src/scheduler.c:280-346 | No step changes the state, the place or the listing of any other process |
| `Scheduler.WakeQueues` | src/scheduler.c:741-792 | Once a step wakes a process the waker's two other steps can follow, and leave it Running, off the wait list and last in the queue |
| `Scheduler.RoundRobin` | src/scheduler.c:927-947 | The queue is fair: a free worker that takes turns reaches the k-th process of the queue in its (k+1)-th turn |
| `Scheduler.SleeperRuns` | src/scheduler.c:741-792 | Nobody sleeps for good: from every state a process that waits for a message or for I/O, listed or still being parked, can be woken and then reached by any free worker |
| `Scheduler.OneHolder` | src/scheduler.c:937-947 | In every run a running process is in exactly one place: queue (once), one worker, one waker or its creator; no two workers hold the same one |
| `Scheduler.NoneLost` | src/vm.c:202-217 | In every run a waiting process is on the wait list, or (waiting for I/O) still in the hands of the worker that parks it |
| `Scheduler.NoStaleWake` | src/scheduler.c:741-792 | In every run a poll result that wakes a process was taken while it waited, and the process has not begun another wait since |
| `RunQueue.Queue.Grow` | src/scheduler.c:312-330 | Doubling the ring keeps the items and their order |
| `RunQueue.Queue.Enqueue` | src/scheduler.c:312-330 | Appends; nothing is overwritten |
| `RunQueue.Queue.TryDequeue` | src/scheduler.c:333-346 | Takes the oldest, or reports that there is none |
| `Shutdown.BoundedDrain` | src/scheduler.c:927-958 | With n workers no run counts more than 64 + n - 1 slices after the entry process finished |
| `Shutdown.DrainReached` | src/scheduler.c:927-958 | For every n some run reaches that number, so the bound is exact |
| `Shutdown.StopsForCause` | src/scheduler.c:961-967 | In every run a worker has left only after a stop was requested, and that only after the entry process ended or was found gone |
| `Shutdown.WindsDown` | src/scheduler.c:927-967 | Once the entry process has ended every schedule ends within 4 (64 + n - 1) + 5 n steps, and when nothing more can happen a stop was requested and all n workers have left |
| `Mailbox.Box.Deliver` | src/scheduler.c:258-287 | Appends, keeps the cursor, and wakes the owner exactly if it waits |
| `Mailbox.Box.Peek` | src/builtin.c:37-71 | Shows the message under the cursor, dies exactly at one with a resource, waits exactly when there is none left |
| `Mailbox.Box.Commit` | src/builtin.c:77-100 | Removes the message before the cursor, or fails exactly where the code reads past the list; what it removes is the message looked at last if and only if no plain receive came in between, and then it holds no resource |
| `Mailbox.Box.Pop` | src/scheduler.c:291-307 | Takes the oldest message; the scan stays in step if and only if it had not begun |
| `Mailbox.Box.Block` | src/vm.c:202-217 | Waits exactly when the mailbox is empty |
| `Mailbox.Box.Select` | src/vm.c:268-305 | With sends at any point, a selective receive takes the earliest matching message of all that arrived and leaves the rest in order; it waits only when it has looked at every message |
| `Mailbox.Box.Serve` | src/vm.c:202-305 | In any session of deliveries, looks, receives and commits without a plain receive in the middle of a scan, no message is passed over and a waiting owner has looked at all |
| `Mailbox.PopKeepsCursor` | src/scheduler.c:291-298 | After a plain receive and any later arrivals every message not looked at is still at or behind the cursor if and only if the scan had not begun; for given arrivals, if it had not begun or had seen all and nothing arrives |
| `Mailbox.Box.PopThen` | src/scheduler.c:291-298 | On the mailbox: a message is passed over exactly as that condition says |
| `Mailbox.LookTakeLook` | src/builtin.c:37-71 | A run in which a message is passed over |
| `Mailbox.SleepsOnMessage` | src/builtin.c:37-71 | A run in which the actor waits on a message it has never looked at |
| `Mailbox.CommitDropsOther` | src/builtin.c:77-100 | A run in which a commit drops a message never looked at, resource or not |
| `Mailbox.CommitPastEnd` | src/builtin.c:77-100 | A run in which a commit reads past the end of the list |
| `Monitor.WalkAdds` | src/scheduler.c:550-582 | A death gives each of its finished monitor calls one notice if the watcher lives, and no other call any |
| `Monitor.StepKeeps` | src/builtin.c:161-214 | Every step of calls and deaths keeps the invariant |
| `Monitor.ExactlyOneDown` | src/builtin.c:161-214 | In every run a reference has at most one notice; a living watcher has exactly one if and only if its call ended with a notice at once or the target's watchers have been walked. What the call found is `NoticeJustified` |
| `Monitor.DecidedWhen` | src/builtin.c:161-214 | Every call that has decided did so in one step of the run, holding the table lock: for a notice exactly if the target was not alive then |
| `Monitor.NoticeJustified` | src/builtin.c:161-214 | In every run a notice at once means that the target was not alive when the call held the lock; a call that found it alive stands on the target's watcher list, with no notice until that list is walked |
| `Monitor.CallEnds` | src/builtin.c:161-214 | A call that may take the lock can be carried to its end: on the watcher list and without a notice if the target lives, otherwise with one notice |
| `Monitor.DeathTells` | src/scheduler.c:550-582 | A death that may take the lock can be carried to its end; then each call on the dead actor's list has one notice if its watcher lives on and none otherwise |
| `Timer.InsertedAt` | lib/timer.c:118-124 | Insertion goes behind every timer due no later |
| `Timer.InsertedSorted` | lib/timer.c:118-124 | The list stays sorted |
| `Timer.DueIdsExact` | lib/timer.c:177-220 | On a sorted list the walk reports exactly the due timers, each once |
| `Timer.SettledLater` | lib/timer.c:177-220 | What remains is sorted and due later |
| `Timer.SettledHas` | lib/timer.c:177-220 | After firing, the list holds the timers that were not due and, of those that were, exactly the repeating, uncancelled ones whose target lived at their turn, each due at now plus its interval |
| `Timer.Timers.Insert` | lib/timer.c:118-124 | The walk past every timer due no later inserts there |
| `Timer.Timers.Register` | lib/timer.c:126-165 | A fresh id, on the list at its place |
| `Timer.Timers.Begin` | lib/timer.c:177-190 | Fires the earliest due timer, and never one that was cancelled |
| `Timer.Timers.Finish` | lib/timer.c:191-220 | A repeating, uncancelled timer with a living target is back on the list, due one interval from now, and not freed; any other is freed and not on the list |
| `Timer.Timers.Cancel` | lib/timer.c:247-286 | Returns 1 exactly for a listed timer or a repeating one in flight; the list loses exactly that timer |
| `Timer.Timers.FireExpired` | lib/timer.c:177-220 | Ends, fires each due timer exactly once in deadline order, leaves only later deadlines, and puts back exactly the timers `SettledHas` names |
| `Timer.Timers.FireAmid` | lib/timer.c:177-220 | With registrations and cancels in every window: it ends with nothing due; every timer due at the start fires exactly once or was cancelled; those that fire keep the order of their deadlines; none fires that was cancelled before the call or in an earlier turn |
| `Symbols.Absent` | src/api.c:68-79 | An empty cell met before the name proves that a linear scan would not find it |
| `Symbols.Filled` | src/api.c:103-115 | Filling the first empty cell indexes the new name and breaks no other probe |
| `Symbols.Lookup` | src/api.c:68-79 | Probing ends and gives the answer of the linear scan |
| `Symbols.Enter` | src/api.c:376-396 | The table indexes one more name; on a repeated name the earlier entry stays |
| `Symbols.Rebuild` | src/api.c:81-101 | The larger table indexes the same names |
| `Symbols.SymbolTable.Intern` | src/api.c:117-160 | The id a linear scan would give, or the next free one; the table stays under seven tenths full |
| `Symbols.SymbolTable.SymbolName` | src/api.c:166-171 | Inverts the scan: it answers with a name if and only if a scan for that name finds the id |
| `Symbols.SymbolTable.NameOfId` | src/api.c:117-171 | Whatever is interned afterwards, the id of a name leads back to it, and interning it again gives the same id |
| `Symbols.IdsStable` | src/api.c:117-171 | Through every sequence of interns ids are stable, injective on names and inverted by the name table |
| `Symbols.CFunctions.Register` | src/api.c:398-409 | A full registry ignores the function; otherwise it is appended |
| `Symbols.CFunctions.Find` | src/api.c:467-475 | The first function registered under the name wins |
| `Sexp.IntToken` | src/val.c:485-525 | A printed integer is one token and reads as that integer if and only if it has 48 bits |
| `Sexp.ReadsForm` | lib/sexp.c:292-321 | What any printed tree without strings and odd names reads as, in any context that ends a token and at any depth; a name "." behind the first element reads as a dot |
| `Sexp.ReadsExact` | lib/sexp.c:261-321 | That is the tree itself if and only if it is legible and within the nesting cap |
| `Sexp.FormNamed` | lib/sexp.c:194-247 | The reader never makes a name with a delimiter or NUL, nor an empty one from a text without NUL |
| `Sexp.FormRoom` | lib/sexp.c:134-192 | What the reader takes in has room for the literals of the strings it gives out, one behind the other |
| `Sexp.PrintTight` | src/val.c:485-525 | Printed text has no such room: each literal would have to end behind the place of its own string |
| `Sexp.StringsLost` | lib/sexp.c:323-344 | So no tree with a string reads back as itself, whatever the string contains |
| `Sexp.ReadBack` | lib/sexp.c:323-344 | For every tree: reading what was printed gives the one-element list of that tree if and only if it has no string, integers have 48 bits, names are tokens, no "." stands behind a first element and the nesting is within the cap |
| `Sexp.StringBack` | lib/sexp.c:134-192 | Every string, escaped and quoted, reads back |
| `Sexp.LiteralExact` | lib/sexp.c:134-192 | A literal reads as a string if and only if what stands before its closing quote spells that string, escapes included; so anything else is refused |
| `Sexp.QuoteReads` | lib/sexp.c:292-321 | A quoted list reads as (quote list); a quoted token is always a name, also when it looks like a number, nil, true or false |
| `Sexp.SkipExact` | lib/sexp.c:115-127 | Exactly the white space and the comments in front are skipped, a comment lasting to the end of its line |
| `Sexp.ReadBackAll` | lib/sexp.c:323-344 | A text of several legible trees reads as the list of them, in order |
| `Sexp.NumberReads` | lib/sexp.c:194-247 | A number may have either sign and leading zeros; it is refused if and only if the token is too long or the value out of range |
| `Sexp.SymbolReadsBack` | lib/sexp.c:194-247 | A name alone reads back if and only if it is a token: not empty, not too long, no delimiter, not a number or literal |
| `Sexp.Parser.Skip` | lib/sexp.c:115-127 | Stops at the first character that is neither blank nor comment |
| `Sexp.Parser.Atom` | lib/sexp.c:194-247 | Computes the atom of the longest token, or fails when it is too long or out of range |
| `Sexp.Parser.StringBody` | lib/sexp.c:134-192 | Computes the unescaped string up to the closing quote, the one `StringBack` is about |
| `Sexp.Parser.ListTail` | lib/sexp.c:261-290 | Computes the list up to its parenthesis |
| `Sexp.Parser.DotTail` | lib/sexp.c:261-290 | Computes a dotted tail, which must be followed by the parenthesis |
| `Sexp.Parser.Form` | lib/sexp.c:292-321 | The recursive descent over a shared position computes the specified form and always advances |
| `Sexp.Parser.All` | lib/sexp.c:323-344 | All forms in order, or failure as a whole |
| `Codec.Base64Back` | lib/encoding.c:62-149 | Every byte string survives base64 in both alphabets, padded and unpadded |
| `Codec.LetterIs` | lib/encoding.c:59-60 | Letter i is the i-th of the alphabet that section 4, or 5, of RFC 4648 prints |
| `Codec.QuadBits` | lib/encoding.c:62-87 | A group is the 24 bits of its bytes, missing ones zero, as four letters of six bits, the highest first; letters for missing bytes alone are padding |
| `Codec.EncodedGroup` | lib/encoding.c:62-87 | Group i of the text encodes group i of the bytes |
| `Codec.B64Encode` | lib/encoding.c:62-87 | The filled buffer is the encoding, with every write inside it |
| `Codec.Base64Accepts` | lib/encoding.c:97-149 | Accepted are exactly letters of the alphabet, then at most two padding characters, with no group of one letter and padding only to fill the last group |
| `Codec.Base64Canonical` | lib/encoding.c:97-149 | An accepted text is the encoding of its bytes if and only if the last group is filled and its unused bits are zero |
| `Codec.TwoSpellings` | lib/encoding.c:97-149 | Two accepted texts with the same byte |
| `Codec.B64Decode` | lib/encoding.c:97-149 | Computes that decoding, with every write inside the scratch buffer |
| `Codec.Letters` | lib/encoding.c:120-149 | The bit accumulator gives the bytes of each group of letters |
| `Codec.HexRoundTrip` | lib/encoding.c:177-218 | Every byte string survives hex |
| `Codec.HexAt` | lib/encoding.c:177-194 | Each byte is two hex digits in small letters, the high one first |
| `Codec.HexEncode` | lib/encoding.c:177-194 | The filled buffer is the hex text |
| `Codec.HexAccepts` | lib/encoding.c:196-218 | Accepted are exactly the texts of even length made of hex digits, in either case |
| `Codec.HexCanonical` | lib/encoding.c:196-218 | An accepted text is the encoding of its bytes if and only if it has no capital letter |
| `Codec.HexDecode` | lib/encoding.c:196-218 | Computes that decoding within its buffer |
| `Codec.PercentRoundTrip` | lib/encoding.c:229-285 | Every byte string survives percent-encoding |
| `Codec.PercentEncode` | lib/encoding.c:229-252 | The filled buffer is the escaped text |
| `Codec.PercentAccepts` | lib/encoding.c:254-285 | Accepted are exactly the texts in which two hex digits follow every percent sign |
| `Codec.PercentCanonical` | lib/encoding.c:229-285 | An accepted text is the encoding of its bytes if and only if every byte outside an escape is unreserved and every escape is in capitals and stands for a reserved byte |
| `Codec.PercentDecode` | lib/encoding.c:254-285 | Computes that decoding within its buffer |
| `Strings.SplitJoin` | lib/str.c:352-395 | Joining what was split gives the string back, for every separator, empty ones included |
| `Strings.PiecesClean` | lib/str.c:352-395 | No piece contains the separator |
| `Strings.SplitExact` | lib/str.c:352-395 | Splitting is the only way to cut a text that joins back to it and cuts at leftmost matches |
| `Strings.JoinSplit` | lib/str.c:352-516 | What was joined splits into the same pieces if and only if no piece brings a separator of its own, inside or across its end |
| `Strings.SinglesAre` | lib/str.c:352-395 | An empty separator cuts into single bytes, in order |
| `Strings.PiecesFew` | lib/str.c:352-395 | There is at most one piece more than separators fit into the text, so the table of starts is never full |
| `Strings.ReplaceIsJoin` | lib/str.c:521-559 | Replacing is splitting and joining; the empty string is replaced nowhere |
| `Strings.ReplaceLength` | lib/str.c:521-559 | The counting pass predicts the length of the result |
| `Strings.StrSplit` | lib/str.c:352-395 | The two passes compute the pieces within the table |
| `Strings.StrJoin` | lib/str.c:474-516 | Joins a proper list of strings into an exactly filled buffer; anything else gives the empty string |
| `Strings.StrReplace` | lib/str.c:521-559 | Fills exactly the predicted length |

## Left out

- OS and library wrappers (sockets, files, processes, TLS, hashing, time), thread creation and module loading: foreign calls with little logic of their own.
- The compiler: that operands are valid, that `maxd` bounds a frame's depth and that RET names the right argument count are preconditions (`OpOk`, `Legal`).
- The linker's walk over instruction words (src/main.c:393).
- Arithmetic, comparison and field access instructions: they appear only through their effect on the stack (`Drop`), with an arbitrary result.
- The gap to the heap and the arena cap in `CallStack.dfy`: they are proved on the bytes in `Proc.dfy`.
- `recv_after` (src/builtin.c:117-156): its timeout is one more waker in `Scheduler.dfy` (`Expire`); its stack depth is not modelled.
- The sweep at the death of the entry process (src/scheduler.c:526-535): scheduling and monitor results are for runs up to it. The ownership protocol has it as a step of its own (`Sweep`).
- Out-of-memory fallbacks, including the restart of the symbol table after a failed rebuild.
- Wrap-around of the run queue's counters and of the wait generation: both are unbounded here.
- The read of a timer's id after unlocking in `timer_register`: the model takes the id assigned under the lock.
- The deadlock detector: a timed heuristic.
- Bit patterns of values and floating point: floats are opaque.
- The name hash: the results hold for every hash function. Masking with a power of two is written as a remainder.
- Error texts and positions of the reader.
- Profiler, command line, dependency tool, benchmarks and documentation.
- Ownership.Safe: rests on C functions returning or releasing every resource they create, as the runtime demands; their bodies are not modelled.
- Scheduler.SleeperRuns: says that a waiting process can always be woken and run, not that it will be, because no fairness of threads and no arrival of messages is assumed.
- CallStack.Machine.DoCall: a native function is an arbitrary result value; what it does to the heap is the callback window of `Proc.dfy`.
- CallStack.Machine.DoDrop: arithmetic is not modelled, so the result is an arbitrary value; its allocations are memory changes of `Run`.
- Timer.Timers.Insert: the timer list is a sequence, so the relinking of nodes is not modelled; the mailbox has it (`Mailbox.Box.Bypass`).
- Mailbox.Box.Peek: the copy of the message into the heap is `Message.Receive` and not repeated here.
- Codec.PercentDecode: a plus sign is an ordinary byte, as in the source.
