# Verified models of the CS252 labs

Dafny models of the three parts of this repository whose correctness rests on more than one function:

- **The boundary-tag allocator** (`lab2-src/MyMalloc.c`). `Memory` is byte-addressed memory kept in
  aligned words. `HeapLayout` is the physical heap as one sequence of segments (fenceposts, free and live
  blocks) in address order, with a well-formedness that speaks only of single segments and of
  neighbours. `HeapPolicy` says what one request does to a layout and `HeapRuns` what follows for whole
  runs. `HeapMemory` says which words of memory represent a layout: headers, footers, and the circular
  free list through the sentinel. `MyMalloc` is the allocator itself, a class whose methods perform the
  source's stores in the source's order; every method is proved to take a represented layout to the
  one the policy names, and so is a whole run of calls (`Perform`). `HeapSteps` and `HeapCopies` hold the
  memory arguments for that, `HeapWalks` the agreement of the forward and backward tags and of the list
  read either way.
- **The semaphore bounded buffer** (`lab4-src/part1.c`). `BoundedBuffer` is a transition system, one atomic
  step of one thread at a time, for any number of producers and consumers, any string and any buffer
  size. A schedule is the sequence of threads that move; `BufferRuns` and `BufferFifo` are statements
  about all schedules. `Modulo` has the arithmetic of ring positions.
- **Pipeline descriptor wiring** (`lab3-src/command.c`). `Descriptors` is a descriptor table with
  lowest-free allocation; `Pipeline` runs `command_execute` on it, with any outcome of open, pipe and
  fork, and states the whole table of every child.

`dafny verify dfyconfig.toml` checks everything.

## How the models read the source

- Sizes are those of the 64-bit build: header 32, footer 16, arena 2097152. A field is one aligned
  8-byte word, and `Store` demands an aligned address; the status enum is given the whole word that it and
  its padding occupy.
- Each public allocator call holds the mutex from its first to its last access to the heap's fields, so a
  method works on the memory in a local variable `w` and stores it back when it returns. `realloc` takes
  the mutex twice and copies without it: `Realloc` is the call in one piece, `ReallocShared` the call with
  other threads' calls in between. A `realloc` of another thread then appears as its allocation and, later,
  its free.
- `sbrk` succeeds. Where the next chunk comes to lie is a parameter `os` of every call that may grow the
  heap: 8-aligned and at or above the end of the last chunk, possibly with a gap.
- The sentinel, a static object, lies below the heap; the insertion walk starts there and compares
  addresses.
- `free` and `realloc` are given pointers to live blocks, or NULL; `size + H + F + 7`, and in `calloc` the
  product, do not wrap. `RoundingWithoutWrap` says for which requests 64-bit arithmetic agrees with the
  mathematical rounding. `realloc` of a live block asks for no more than an arena: the source copies into
  the result without testing it for NULL.
- The program itself may write any byte of a live payload (`WriteByte`).
- All threads of the bounded buffer exist from the start; creating them one after the other only rules
  out interleavings. The fields `log` and `taken` are a record for the statements; no step reads them.
- In the pipeline, the shell is started with descriptors 0, 1 and 2 open and never runs out of
  descriptors, and a command is known by what the code does with its first argument.

## What the proofs brought out

- **Growth can cut too close.** The first-fit path keeps a block whole when the remainder is below 56
  bytes; the growth path (`lab2-src/MyMalloc.c:349-366`) has no such test. When the remainder of a new
  chunk is 8 to 40 bytes, its header and footer overlap each other or the end fencepost, and no layout
  is represented afterwards. This is the only way the heap invariant can be lost:
  `Allocator.AllocateObject` keeps it if and only if `CutFits`, and `CutFitsUnlessInWindow` shows that to
  be the sizes 2097105 to 2097144 when no free block fits. `WindowReached` gives a run that gets there.
  What is left then is a list that leads through the old free blocks and ends in a node that heads no
  block (`Dangles`); a `realloc` whose allocation ends so still copies and frees correctly.
- **Other threads cannot spoil a realloc.** Any calls of theirs before each byte of the copy and before the
  final free, as long as they free neither block, leave its result as promised (`ReallocShared`).
- **Case 4 of free needs the sorted list.** `left->next = right->next` unlinks the right neighbour only if
  the right neighbour is the left one's successor. `FreeLinks` proves that it always is.
- **The heap has no memory of its history.** The chunks and the live blocks determine the layout and the
  free list (`Canonical`); round trips, independence of the order of frees and full recovery follow.
- **The first-fit path never leaves an unusable block.** A free block is handed out whole exactly when no
  request, however small, could be served from the remainder (`MallocBlockIs`).
- **The bounded buffer finishes for unequal counts too.** The comment at `lab4-src/part1.c:80-85` promises
  it for equal numbers of producers and consumers; the exact condition is `0 <= n*(P - C) <= B`.
- **The consumer does not consume from the buffer.** It prints `prod_str[i]` (`lab4-src/part1.c:109`), although
  its comment says it consumes the character from the buffer. The two agree in every run exactly
  for one producer and one consumer (or a string of one repeated character, or a missing role).
- **A pipeline whose output file cannot be opened feeds itself.** The last command of two or more then keeps
  the write end of its own input pipe as standard output. It is the only child that ever holds a write
  end other than its own (`ChildrenPrivate`).
- **A builtin in front of a pipe leaves the shell holding it.** After `cd | cat` nothing has been started and
  the shell's standard output is the write end of the pipe (`BuiltinIntoPipe`). `WriteEndsPrivate` gives the
  exact condition: a surviving shell and its children keep the write ends apart unless the shell returned
  before the last command, or got to the last of several commands and could not open its output file.
- **An early return leaks.** After `cd`, `setenv`, `unsetenv` or a failed fork, the shell keeps the child's
  wiring and three or four extra descriptors (`EarlyReturnLeaks`). A shell that survives has its own table
  back exactly when every command is a program and every pipe and fork succeeds (`RestoredWhen`); a lone
  `cd` is an input that fails it (`LoneBuiltin`).

## Model

| member | source | states |
|---|---|---|
| HeapPolicy.RoundedIsLeast | lab2-src/MyMalloc.c:212-234 | the rounded size is the least multiple of 8 that holds header, footer and the request, and header, footer and 8 bytes; it exceeds a full block exactly when the request exceeds the arena |
| HeapPolicy.RoundingWithoutWrap | lab2-src/MyMalloc.c:224-227 | size_t arithmetic yields that size if and only if the sum does not wrap |
| HeapPolicy.FirstFit | lab2-src/MyMalloc.c:236-305 | the index is that of a free block large enough, and none before it is |
| HeapRuns.FirstFitIsLowest | lab2-src/MyMalloc.c:237-245 | of all free blocks large enough, the one taken has the lowest address |
| HeapPolicy.TakeKeeps | lab2-src/MyMalloc.c:245-300 | taking a free block whole or split keeps the heap well formed, adds exactly one live block, and leaves the chunks alone; the block is kept whole exactly when no request could be served from its remainder |
| HeapRuns.MallocBlockIs | lab2-src/MyMalloc.c:245-378 | the block handed out, in every case: the rounded size at the head of the first fit, the whole first fit when its remainder could serve no request, the rounded size at the head of a new chunk |
| HeapPolicy.FreeKeeps | lab2-src/MyMalloc.c:403-479 | freeing removes exactly one live block and keeps the heap well formed: tiling, no two adjacent free blocks, no merge across a fencepost |
| HeapPolicy.CutFitsUnlessInWindow | lab2-src/MyMalloc.c:344-366 | growth can place the remainder except for the requests of 2097105 to 2097144 bytes, when no free block fits |
| HeapPolicy.WindowReached | lab2-src/MyMalloc.c:349-353 | a concrete run that ends in such a request |
| HeapLayout.Canonical | lab2-src/MyMalloc.c:388-482 | two well-formed heaps with the same chunks and the same live blocks are the same layout |
| HeapLayout.Ordered | lab2-src/MyMalloc.c:142-154 | segments follow each other without overlap, over the whole heap |
| HeapLayout.Disjoint | lab2-src/MyMalloc.c:265-300 | two different blocks never share a byte |
| HeapLayout.FreeAddrsSorted | lab2-src/MyMalloc.c:408-421 | the free list is in strictly increasing address order, nodes at least a block apart |
| HeapRuns.MallocKeeps | lab2-src/MyMalloc.c:205-379 | malloc adds one new live block, 8-aligned, with room for the request, and keeps all others; a chunk is added exactly when nothing fits |
| HeapRuns.FreePtrKeeps | lab2-src/MyMalloc.c:388-482 | free removes exactly the block at the pointer |
| HeapRuns.FreeUndoesMalloc | lab2-src/MyMalloc.c:388-458 | free after malloc restores the layout, or the old layout followed by one fully free chunk if the heap grew |
| HeapRuns.FreeAllKeeps | lab2-src/MyMalloc.c:388-482 | freeing a list of pointers removes exactly those blocks |
| HeapRuns.AnyOrder | lab2-src/MyMalloc.c:388-482 | freeing a set of live blocks ends in the same heap in every order |
| HeapRuns.NothingLive | lab2-src/MyMalloc.c:168-184 | with nothing live every chunk is one free block of full size, and the free list is these in address order |
| HeapRuns.Conservation | lab2-src/MyMalloc.c:546-554 | bytes in blocks plus fenceposts equal chunks times chunk size |
| HeapRuns.StepKeeps | lab2-src/MyMalloc.c:578-642 | malloc adds one live block, free removes one, realloc trades one for another, NULL and oversized requests change nothing; a chunk is added exactly when a request within an arena fits nowhere |
| HeapPolicy.BreakOkWhen | lab2-src/MyMalloc.c:546-554 | the break may be at any aligned address past all the memory obtained so far |
| HeapRuns.EnabledWhen | lab2-src/MyMalloc.c:578-642 | which calls runs are made of: every call a program may make, but for the window of sizes while no free block fits |
| HeapRuns.RunExtends | lab2-src/MyMalloc.c:578-642 | every run goes on with every such call |
| HeapRuns.RunKeeps | lab2-src/MyMalloc.c:578-642 | every state of every run of malloc, free and realloc is well formed and conserves its bytes |
| HeapRuns.HistoryFree | lab2-src/MyMalloc.c:578-642 | two runs that end with the same chunks and live blocks end with the same layout and free list |
| HeapRuns.RunNothingLive | lab2-src/MyMalloc.c:388-482 | a run that frees everything ends with only full free blocks |
| HeapWalks.TagsAgree | lab2-src/MyMalloc.c:144-189 | reading a chunk up by headers and down by footers, each until a fencepost, shows the same blocks, those of the layout |
| HeapWalks.ChunkFrom | lab2-src/MyMalloc.c:144-164 | every start fencepost opens a stretch of blocks that ends at an end fencepost |
| HeapWalks.ListWalks | lab2-src/MyMalloc.c:522-540 | following next from the sentinel, or prev, until it comes round meets exactly the free list of the layout, and ends |
| HeapLayout.FreeAddrsMember | lab2-src/MyMalloc.c:180-184 | that list names exactly the free blocks |
| HeapSteps.FreeLinks | lab2-src/MyMalloc.c:459-479 | the list around a live block; with both neighbours free, the left one's next is the right one |
| HeapSteps.NoLayout | lab2-src/MyMalloc.c:349-358 | after a cut that leaves no room for a header and footer, memory represents no layout of the chunks obtained |
| MyMalloc.Allocator.constructor | lab2-src/MyMalloc.c:112-194 | initialization represents one chunk with one free block of full size |
| MyMalloc.Allocator.TakeWhole | lab2-src/MyMalloc.c:250-265 | a block with a small remainder is handed out whole and unlinked |
| MyMalloc.Allocator.SplitBlock | lab2-src/MyMalloc.c:267-300 | the stores of a split: tags of both parts, the tail between the block's old list neighbours, nothing else touched |
| MyMalloc.Allocator.Split | lab2-src/MyMalloc.c:267-300 | the head is handed out, the tail takes the block's place in the list |
| MyMalloc.Allocator.WriteFenceposts | lab2-src/MyMalloc.c:333-339 | both fenceposts read ALLOCATED and size 0, nothing else is written |
| MyMalloc.Allocator.CutTail | lab2-src/MyMalloc.c:349-358 | the rest of a new chunk is linked in at the tail of the list, and tagged free when the cut leaves room for its tags |
| MyMalloc.Allocator.WriteChunk | lab2-src/MyMalloc.c:333-375 | the stores of growth, tight cuts and whole-chunk requests included: links at the tail, the tags of the new chunk, nothing outside it touched |
| MyMalloc.Allocator.Grow | lab2-src/MyMalloc.c:306-378 | a chunk is appended and its head handed out; the heap is represented afterwards if and only if the cut leaves room; otherwise the old blocks are, by a list that ends in a dangling node |
| MyMalloc.Allocator.FindFit | lab2-src/MyMalloc.c:236-305 | the walk of the list ends at the first fit of the layout, or at the sentinel when there is none |
| MyMalloc.Allocator.AllocateObject | lab2-src/MyMalloc.c:205-379 | first fit, growth only when nothing fits, NULL only above an arena; new layout and address; no live payload word changes; no word outside the sentinel and the chunks changes; heap size and chunk count; invariant lost exactly when the cut does not fit, and what is represented then |
| MyMalloc.Allocator.FindPlace | lab2-src/MyMalloc.c:409-417 | the insertion walk stops at the last free block below the freed one, or the sentinel |
| MyMalloc.Allocator.Insert | lab2-src/MyMalloc.c:404-422 | case 1: marked free and linked between the two nodes |
| MyMalloc.Allocator.MergeLeft | lab2-src/MyMalloc.c:423-437 | case 2: the left block covers both, its links unchanged; what stays behind inside it is as the source leaves it |
| MyMalloc.Allocator.MergeRight | lab2-src/MyMalloc.c:438-458 | case 3: the block covers both and takes the right one's place |
| MyMalloc.Allocator.MergeBoth | lab2-src/MyMalloc.c:459-479 | case 4: the left block covers all three and precedes the right one's successor |
| MyMalloc.Allocator.FreeObject | lab2-src/MyMalloc.c:388-482 | the layout with that block freed and merged is represented, whether the list comes round to the sentinel or ends in a dangling node; no other live payload word changes, and none outside the sentinel and the chunks but the dangling node's back link |
| MyMalloc.Allocator.Malloc | lab2-src/MyMalloc.c:578-587 | the public call: an 8-aligned address, or NULL above an arena; exactly that block becomes live, and its header and footer say so, unless the cut does not fit |
| MyMalloc.Allocator.Free | lab2-src/MyMalloc.c:594-603 | NULL is ignored, a live pointer is freed |
| MyMalloc.Allocator.Realloc | lab2-src/MyMalloc.c:611-642 | the first min(old payload, size) bytes arrive in the new block; the copy reads inside the old chunk and stays clear of the new payload; the old block is freed; other payloads keep their words; all of it also when the cut does not fit |
| MyMalloc.Allocator.ReallocShared | lab2-src/MyMalloc.c:611-642 | the same result when other threads make any calls before each byte of the copy and before the final free, as long as they free neither block |
| MyMalloc.Allocator.CopyByte | lab2-src/MyMalloc.c:622-634 | one byte of the copy after such calls: it is the byte the old block held before them, and the rest of the new block is unchanged |
| MyMalloc.Allocator.Perform | lab2-src/MyMalloc.c:578-642 | a run of calls on memory ends in the last layout of the policy's run, represented; a block that stays live keeps its payload throughout, and so do all words outside the sentinel and the chunks |
| MyMalloc.Allocator.Call | lab2-src/MyMalloc.c:578-642 | one call of malloc, free or realloc is the policy's step; blocks live before and after keep their payloads |
| HeapRuns.OthersExtend | lab2-src/MyMalloc.c:622-640 | the other threads may go on with any run that frees neither block |
| HeapCopies.Overwritten | lab2-src/MyMalloc.c:662-666 | whatever is written into a new object, memory represents what malloc left, tight cuts included |
| HeapCopies.ReallocBlocks | lab2-src/MyMalloc.c:621-634 | source and destination of the copy do not overlap although the size read counts header and footer |
| MyMalloc.Allocator.Calloc | lab2-src/MyMalloc.c:650-669 | every byte of the request reads 0 and other payloads keep their words; the heap is represented exactly when the cut fits |
| MyMalloc.Allocator.WriteByte | lab2-src/test8-7.c:28-29 | a program that writes inside a live payload changes that byte only and leaves the heap represented |
| Memory.Memcpy | lab2-src/MyMalloc.c:634-634 | the copied range holds the source bytes, every other byte is unchanged |
| Memory.BytesReadBack | lab2-src/MyMalloc.c:634-634 | a scalar copied byte by byte reads back as the same scalar |
| Memory.Memset | lab2-src/MyMalloc.c:665-665 | the range holds the byte, every other byte is unchanged |
| BoundedBuffer.InitInv | lab4-src/part1.c:139-158 | the state main sets up satisfies the invariant |
| BoundedBuffer.NextInv | lab4-src/part1.c:56-120 | every step of every thread keeps the invariant |
| BoundedBuffer.EnabledWhen | lab4-src/part1.c:56-120 | a thread can step exactly unless it has finished, its semaphore has been taken as often as it was there at first or posted since, or it wants the mutex while some thread is in the critical section |
| BufferRuns.ProducersOverlap | lab4-src/part1.c:60-62 | as many producers as there are slots get past the semaphore before any of them goes on |
| BufferFifo.ScheduleExtends | lab4-src/part1.c:56-120 | every schedule goes on with every thread that can step |
| BoundedBuffer.Bounds | lab4-src/part1.c:20-29 | semaphores plus threads in flight equal the buffer size; neither over- nor underflow |
| BufferRuns.Safety | lab4-src/part1.c:56-120 | in every reachable state: slot accounting, mutual exclusion, ring positions; no unconsumed slot is written, a consumed slot holds the oldest item |
| BufferRuns.RunsAreBounded | lab4-src/part1.c:56-120 | no run has more than 6 steps per thread and character |
| BufferRuns.StuckMeansFinished | lab4-src/part1.c:56-120 | in range, when no thread can move all have finished |
| BufferRuns.TerminationCondition | lab4-src/part1.c:80-85 | all threads finish in every maximal run if and only if 0 <= n*P - n*C <= B |
| BufferRuns.ProgramCounts | lab4-src/part1.h:4-4 | with 13 characters and 32 slots that is 0, 1 or 2 more producers than consumers |
| BufferFifo.FaithfulPrints | lab4-src/part1.c:107-114 | under the condition, a printing consumer shows the character in its slot |
| BufferFifo.UnfaithfulFails | lab4-src/part1.c:107-114 | otherwise some schedule leads to a print that differs from the slot |
| BufferFifo.PrintsSlotCondition | lab4-src/part1.c:107-114 | the printed character is the consumed one in every run exactly for one producer and one consumer, a constant string, or a missing role |
| Descriptors.LowestFree | lab3-src/command.c:237-239 | dup and open return the least descriptor that is not open |
| Pipeline.Shell.Save | lab3-src/command.c:236-249 | the standard descriptors are saved and the initial input opened: the file, or the shell's own input |
| Pipeline.Shell.OpenLast | lab3-src/command.c:270-301 | error and output of the last command: the files with their modes, or the shell's own |
| Pipeline.Shell.Wire | lab3-src/command.c:267-316 | after the plumbing of command i the table is exactly that of child i |
| Pipeline.Shell.Restore | lab3-src/command.c:397-403 | after the loop the shell's table is the one it started with |
| Pipeline.Shell.CommandExecute | lab3-src/command.c:209-417 | the outcome for every combination of commands and failures; which children are forked, each one's exact table; the shell's table on completion and on an early return |
| Pipeline.OutcomeWhen | lab3-src/command.c:217-395 | the shell exits exactly at an `exit` or a pipe that fails, and returns to its prompt exactly at a builtin or a fork that fails, after programs that were all piped and forked; it completes exactly when there is neither |
| Pipeline.OuterEnds | lab3-src/command.c:241-301 | of the tables commands are given: the first reads the input file or the shell's input; the last writes to the output file, appended or truncated as asked, or the shell's output, and reports to the error file, appended, or the shell's errors; what happens when a file does not open |
| Pipeline.PipesConnect | lab3-src/command.c:302-316 | each command's output is the next one's input and nobody else's; only the last one's errors are redirected; other descriptors are passed on |
| Pipeline.ReadEnds | lab3-src/command.c:311-313 | who holds the read end of each pipe |
| Pipeline.WriteEnds | lab3-src/command.c:311-316 | who holds the write end of each pipe |
| Pipeline.ChildrenPrivate | lab3-src/command.c:288-340 | of the children a call leaves, exits included, each holds at most its own write end, as standard output, if and only if not all were started with a failed output file behind a pipe |
| Pipeline.WriteEndsPrivate | lab3-src/command.c:288-373 | a surviving shell holds no write end and each child only its own, except exactly when the shell returned before the last command, or reached the last of several and could not open its output file |
| Pipeline.BuiltinIntoPipe | lab3-src/command.c:302-340 | a builtin in front of a pipe: no child is started and the shell keeps the write end as standard output |
| Pipeline.EarlyReturnLeaks | lab3-src/command.c:338-373 | the call returns early exactly when the first command that stops it is a builtin or cannot be forked; it then leaves exactly three or four more descriptors open |
| Pipeline.RestoredWhen | lab3-src/command.c:397-403 | a surviving shell has its own table back if and only if every command is a program and every pipe and fork succeeds |
| Pipeline.LoneBuiltin | lab3-src/command.c:340-349 | a lone `cd` leaves three descriptors open and the table changed |
| Pipeline.CompletedWhen | lab3-src/command.c:255-395 | the shell completes the pipeline exactly when every command is a program and every pipe and fork succeeds |

## Left out

- Allocator statistics, the text `print_list` prints, verbose printing, call counters, `atexit`, the environment variable and `pthread_mutex_init`: output and setup only.
- The 32-bit build: sizes are constants of the model, fixed to the 64-bit ones.
- Failure of `sbrk`, frees of pointers that are not live, and wrap-around of request sizes: outside what the source handles.
- MyMalloc.Allocator.ReallocShared: stated for requests whose cut fits, because no layout says what other threads' calls do in a heap that is no longer represented; their writes into payloads of their own are not among the calls.
- MyMalloc.Allocator.Perform: the calls are those of a run the policy allows, so it stops short of a call after a tight cut.
- `lab4-src/part2.c`: counts are tested outside the mutex and signals are posted once for a batch, so the obvious safety properties do not hold of it as written.
- Thread creation and joining in `main`, and the text printed: the model starts with all threads at their loop.
- Process execution, waiting, signals, `zombie`, prompt and printing in `lab3-src/command.c`, and the effects of the builtins other than on descriptors.
- `simple_command_insert_argument`, `command_insert_simple_command` and `command_clear`: growing arrays with easy contracts.
- `y.tab.h` and the parser are not part of this model.
- `read-line.c`, lab 1, lab 5, the shell scripts and the drivers: terminal, network or file input and output with little logic to prove.
