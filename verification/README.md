# CasseOS: a verified model of the kernel's stateful core

CasseOS is a small freestanding kernel. This project models the parts of it that keep state over
an unbounded run, and proves what those parts are for:

- **The UHCI periodic schedule.** A 1024-entry frame list, filled and cleared by a modular stride
  loop; up to four keyboard pipes, each with one persistent transfer descriptor that is re-armed
  with a data toggle; five control transfers that borrow frame slots and whose blocks come from the
  kernel's allocator. Hardware completions are steps of the environment.
- **The first-fit free-list allocator** under all of it.
- **The screen.** An 80x25 VGA text screen and a pixel framebuffer, both refining one terminal.
- **The configuration-blob parser**, against a declarative choice on descriptor lists.
- **The USB keyboard.** Boot reports become modifier transitions, releases and presses, which pass
  through a ring from the interrupt side to the shell.
- **The shell's line editor and the number printers**, in-place code on character arrays.
- **The whole input path**, from completions on the bus to the command line, under every interleaving of
  interrupts, driver calls and reads.

Every operation appears twice: as a function on values (`Alloc`, `Open`, `Finish`, `PrintAt`,
`OnReport`, `Edit`, ...) and as a method on a class or an array whose postcondition says that it
computes that function. The theorems about whole runs are proved on the functions, so they hold of
the methods. Each function has laws that do not use its own definition: the screen shows the byte
printed, the pipe polls the device asked for, a report presses the keys that are new, a transfer
returns 1 exactly when its poll was good, a word typed and entered is the line.

## Layout

| files | what they hold |
|---|---|
| `Stride`, `FrameList` | strides modulo 1024, the stride loop |
| `Heap`, `HeapRuns`, `HeapLimits`, `HeapAlignments`, `Allocator` | the heap as a value, runs of requests, what goes wrong outside the callers' discipline, runs at any mixture of alignments, the linked list in memory |
| `UhciWords`, `Resources`, `UhciModel`, `UhciPipes`, `UhciTransfers`, `UhciFinish`, `UhciLeaks`, `UhciBlobs`, `UhciRoom` | link words and tokens, blocks and their owners, the driver's state and invariant, pipes, transfers and what they leave behind, configuration blobs, when allocations succeed |
| `Endpoint`, `UhciService`, `UhciRuns`, `UhciDelivery`, `UhciPolling`, `UhciOnBus`, `UhciEnumeration` | reports of one pipe and of all, whole runs, delivery and polling over whole runs, what the controller finds in memory, the enumeration as a run |
| `UhciDriver`, `UhciControl` | the driver in memory: pipes and service, and the five control transfers written out |
| `Terminal`, `VgaConsole`, `Framebuffer`, `FbConsole`, `Consoles` | the terminal both screens refine, and their equivalence |
| `ConfigBlob` | the descriptor walker |
| `EventRing`, `HidReport`, `Modifiers`, `Keyboard`, `KeyboardLayer` | the ring, the report differ, modifier bits, the keyboard layer as a value and in memory |
| `CString`, `Numerals`, `Printers`, `Editor`, `CommandLine` | strings in buffers, numerals, the printers, the line editor as a value and in memory |
| `KeyStream`, `KeyEvents`, `KeyMeanings`, `InputPath`, `Typist` | the events of the keyboard layer apart from its queue, which keys they press and release, what single keys do, the path from the bus to the command line, words typed on it |

## Where the code does less than one would expect

The model follows the code; each of these is proved, with the exact condition where there is one.

- `aligned_alloc` ignores alignment padding when it reuses a block. Callers are safe with each other exactly
  when the alignments they use, apart from those refused at once, are all 8, all 16, or all so large that
  nothing is ever granted (`HeapAlignments.SoundExactly`); alignment 32 alone, 8 with 16, and 16 with
  2^32 already break it (`MixturesFail`). A granted pointer has the alignment
  asked for exactly when it was served from the free list or the alignment is at most 16
  (`GrantedAlignedExactly`). Requests near 2^64 wrap; `AllocSoundExactly` says exactly when the heap
  stays good.
- A second keyboard can silence the first. Opening a pipe writes its walk over whatever the slots held,
  so the first pipe loses exactly the slots both walks cover (`UhciPolling.PolledExactly`,
  `SecondOpen`); two keyboards polled every 10 frames lose the first one entirely exactly when the frame
  numbers at the two opens have the same parity (`TwoKeyboards`). Closing the second terminates those slots.
- Events that find the queue full are lost for good; the line is what was typed exactly as long as no
  service call runs out of room (`InputPath.EventsConservedExactly`).
- A failed GET_CONFIG frees a queue head that its frame slot still links to. The frame list stays
  safe across the end of a transfer exactly when no such slot is left (`UhciFinish.FinishSafeExactly`),
  a GET_CONFIG that fails with nothing in between always leaves one
  (`UhciRuns.ConfigFailureDangles`), and the first transfer of a fresh driver can be such a one
  (`ConfigFailureHappens`).
- Three of the five transfers never give back their setup packet, and an early return keeps
  everything (`UhciLeaks.TransferLeavesExactly`); a transfer that runs out of memory half-way keeps the
  blocks it already has (`FailedBeginLeavesExactly`).
- A GET_CONFIG is put into the slot of the current frame, all other transfers into those of the next two
  (`UhciOnBus.BeginOnBus`).
- The status stage of SET_ADDRESS is sent with toggle 0, where section 8.5.3 of USB 2.0 has DATA1, and
  all status stages carry a length field of one byte instead of none (`UhciTransfers.StatusStage`).
- Lifting the right key of a modifier pair clears the shared bit although the left key is held
  (`Keyboard.ModifiersExact`, `LiftedShiftIsLost`). Caps lock and shift together choose the shifted table
  (`Keyboard.CapsOrShiftShifts`).
- A usage that fills several slots of a report (roll-over) is pressed several times
  (`HidReport.RollOverDoesNotAlternate`, `AlternatesExactly`).
- With the automatic cursor off the VGA cursor stays where it is (drivers/screen/screen.c:199) and the
  framebuffer's moves all the same (screen.c:606-607). The cells stay equal; alike screens stay
  alike exactly when the flag is on or the VGA cursor already sits at the next position
  (`Consoles.PrintBoth`, `CursorsPart`).
- A string printed from a point off the grid loses its first character, on both screens, and on the VGA
  screen all of it when its position lies past the grid (`VgaConsole.VgaConsole.KPrintAt`,
  `FbConsole.FbConsole.KPrintAt`).
- An interface or endpoint record that claims to be shorter than its structure is read beyond its own
  length; the parser then decides about the bytes of the records behind it (`ConfigBlob.Record`).
- The parser keeps the last boot-keyboard interface, although its comment says it picks "the"
  keyboard interface.
- Within one drain of the event queue only the last press decides whether a command ended
  (`CommandLine.CommandLine.Drain`).
- The comment at drivers/usb/uhci/hid_kbd.c:109 says HID pipes typically start with DATA1; the code
  starts with toggle 0, and so does the model.

## Model

| member | source | states |
|---|---|---|
| `Stride.SlotsMeet` | drivers/usb/uhci/hid_kbd.c:69-75 | two strides of the walk meet in one slot exactly when they are a whole number of periods 1024/gcd apart |
| `Stride.SlotsDistinct` | drivers/usb/uhci/hid_kbd.c:69-75 | within one period the walk never visits a slot twice |
| `Stride.BackAtStart` | drivers/usb/uhci/hid_kbd.c:73-74 | the stop test "next slot is the first one" first fires after exactly one period |
| `Stride.SlotOwned` | drivers/usb/uhci/hid_kbd.c:69-75 | every slot visited is congruent to the first one modulo gcd(interval, 1024) |
| `Stride.OwnedReached` | drivers/usb/uhci/hid_kbd.c:69-75 | every slot congruent to the first one modulo the gcd is visited within one period |
| `Stride.WindowHit` | drivers/usb/uhci/hid_kbd.c:69-75 | any `interval` consecutive frames, wrapping at the end of the list, contain a slot of the walk |
| `FrameList.FullWalk` | drivers/usb/uhci/hid_kbd.c:61-76 | one whole walk meets exactly the slots congruent to the first modulo the gcd, each once |
| `FrameList.PolledInEveryWindow` | drivers/usb/uhci/hid_kbd.c:61-76 | after scheduling, every window of `interval` frames, also across the wrap, offers the queue head to the controller |
| `FrameList.WriteEvery` | drivers/usb/uhci/hid_kbd.c:61-76 | the stride loop terminates after exactly 1024/gcd writes, writes the word to exactly the owned slots, each once, and changes no other slot; interval 0 writes nothing |
| `Heap.FirstFit` | libc/mem.c:75-100 | the position of the first free block that is large enough: all before it are too small |
| `Heap.AllocKeepsInv` | libc/mem.c:63-126 | a request at alignment 16 keeps blocks disjoint, inside the buffer and partitioned into live and free; it grants a new 16-aligned block with room for the request, or fails with nothing changed only when no free block is large enough and no fresh one fits |
| `Heap.ReuseKeepsInv` | libc/mem.c:78-96 | a reused block leaves the list with the others in order, needs no padding and becomes live with room for the request |
| `Heap.CarvedKeepsInv` | libc/mem.c:102-125 | a fresh 16-aligned block lies past everything carved before and keeps the heap invariant |
| `Heap.FreeKeepsInv` | libc/mem.c:128-139 | freeing a live pointer, or null, keeps the heap invariant and ends the life of exactly that block |
| `Heap.SmallRequests` | libc/mem.c:73-115 | no request of at most 512 KB makes a 64-bit sum wrap on a good heap |
| `HeapRuns.EmptyInv` | libc/mem.c:57-61 | the empty heap satisfies the invariant for every buffer address below 2^32 |
| `HeapRuns.Run` | libc/mem.c:63-139 | over every run of 16-aligned requests and frees of live pointers the heap invariant holds |
| `HeapRuns.UserAreasDisjoint` | libc/mem.c:63-139 | after every such run from an empty heap, any two live user areas are disjoint, 16-aligned and inside the buffer, each as large as requested |
| `HeapRuns.FreedFirst` | libc/mem.c:128-139 | last freed, first used: a request that fits what the owner of a freed block had is granted that very block, and the rest of the list is as before |
| `HeapRuns.CarvedIsLivePlusFree` | libc/mem.c:63-139 | conservation: blocks ever carved are the live ones plus those on the free list |
| `HeapRuns.CarvedTracksPeak` | libc/mem.c:75-139 | for equal-sized granted requests, carved blocks after a run are the maximum of those carved before and the peak of live blocks |
| `HeapRuns.CarvedEqualsPeak` | libc/mem.c:75-139 | from an empty heap, a run of equal-sized granted requests carves exactly as many blocks as were ever live at once |
| `HeapLimits.FreshAlignedExactly` | libc/mem.c:102-125 | the fresh path: a pointer carved from the buffer has the requested power-of-two alignment if and only if that is at most 16 |
| `HeapLimits.ReuseRoomyExactly` | libc/mem.c:78-96 | one request served from the free list stays inside its block if and only if the block also has room for the padding that the size test ignores; the condition over runs is HeapAlignments.SoundExactly |
| `HeapLimits.MixedReachable` | libc/mem.c:63-139 | the bad heap is reached by allocating 8 bytes at alignment 8 and freeing them |
| `HeapLimits.MixedAlignmentsFail` | libc/mem.c:78-96 | on that heap a request for 8 bytes at alignment 16 is granted an area that ends past its block |
| `HeapLimits.AllocSoundExactly` | libc/mem.c:63-126 | a 16-aligned request of any 64-bit size keeps the heap good if and only if its true end does not wrap, or wraps to an offset past the buffer while the size sum does not meet a free block |
| `HeapLimits.WrappingRequestFails` | libc/mem.c:73-118 | the size 2^64 - 32 on an empty heap is granted a block that reaches past the buffer |
| `HeapAlignments.SoundExactly` | libc/mem.c:63-139 | for every set of 64-bit alignments: runs that use any of them keep every granted area inside its block and apart from all others, for every buffer address and every run, if and only if those that are powers of two (once raised to 8) are all 8, all 16, or all at least 2^32 |
| `HeapAlignments.ClashUnsound` | libc/mem.c:78-96 | whenever the first block carved at one alignment does not have another, allocating 8 bytes at the first, freeing them and allocating 8 at the second is unsound |
| `HeapAlignments.LargeAlignmentsUnsound` | libc/mem.c:78-96 | for every power of two from 32 to 2^31, eight bytes allocated, freed and allocated again on a suitable buffer break it |
| `HeapAlignments.MixturesFail` | libc/mem.c:78-96 | the concrete runs: alignment 32 alone, 8 with 16, 16 with 2^32 |
| `HeapAlignments.GrantedAlignedExactly` | libc/mem.c:63-126 | a pointer granted by aligned_alloc has the alignment asked for if and only if it was served from the free list or the alignment is at most 16 |
| `Allocator.Allocator.constructor` | libc/mem.c:57-61 | an empty list and offset 0 are the empty heap |
| `Allocator.Allocator.Search` | libc/mem.c:75-100 | following the chain finds the first block that is large enough, and the link that points to it |
| `Allocator.Allocator.Unlink` | libc/mem.c:80-81 | relinking takes exactly that block out and leaves an acyclic chain of the others in order |
| `Allocator.Allocator.TakeFree` | libc/mem.c:80-96 | handing out a free block with its header moved up to the alignment is the heap operation Reuse |
| `Allocator.Allocator.TakeFresh` | libc/mem.c:102-125 | carving from the buffer, or failing, is the heap operation Carve |
| `Allocator.Allocator.AlignedAlloc` | libc/mem.c:63-126 | for every alignment and size, the linked list in memory refines the heap operation Alloc, bad alignments and exhaustion included |
| `Allocator.Allocator.AlignedFree` | libc/mem.c:128-139 | pushing a block on the chain is the heap operation Free; null is ignored |
| `UhciWords.LinkRoundTrip` | drivers/usb/uhci/hid_kbd.c:72 | decoding a queue-head or descriptor link gives back the pointer and only the flag set, if and only if the address is 16-aligned and below 2^32 |
| `UhciWords.QhLinksDiffer` | drivers/usb/uhci/transfer.c:90-91 | different linkable queue heads have different link words, none of which is the terminate word |
| `UhciWords.InTokenRoundTrip` | drivers/usb/uhci/hid_kbd.c:45-59 | PID and toggle always survive the IN token; address, endpoint and length all do if and only if they fit 7 bits, 4 bits and 1..2048 |
| `UhciWords.StatusConstants` | drivers/usb/uhci/hid_kbd.c:84-86 | the armed status word is active, and the error mask is the five error bits |
| `UhciWords.WaitForTransfer` | drivers/usb/uhci/transfer.c:39-53 | the wait reports a timeout exactly when the first 3000 polls all see the descriptor active, otherwise the code of the first retired status, and succeeds exactly when that has no error bit and no NAK |
| `UhciWords.ClassifyExactly` | drivers/usb/uhci/transfer.c:46-52 | the code names the highest of the status bits 22 to 17 that is set, and 1 says that none is |
| `Resources.ObtainKeepsInv` | drivers/usb/uhci/transfer.c:11-33 | an allocation adds at most one new object and keeps blocks, slots and owners consistent |
| `Resources.ObtainAllKeepsInv` | drivers/usb/uhci/transfer.c:70-73 | several allocations in a row give distinct new objects, a failed one null, and disturb nothing else |
| `Resources.ReleaseAllKeepsInv` | drivers/usb/uhci/transfer.c:104-110 | giving back unowned, unlinked blocks keeps everything consistent and puts exactly them on the free list |
| `Resources.RelinkKeepsInv` | drivers/usb/uhci/hid_kbd.c:69-75 | slots may be terminated or linked to a live queue head within its region without making any slot unsafe or losing track of another owner |
| `UhciModel.InvSlotsSafe` | drivers/usb/uhci/controller.c:37-41 | the invariant implies the safety property: every slot is terminated or links to a live queue head |
| `UhciPipes.FreePipe` | drivers/usb/uhci/hid_kbd.c:99-100 | the first table entry not in use |
| `UhciPipes.OpenKeepsInv` | drivers/usb/uhci/hid_kbd.c:92-146 | opening a pipe keeps the invariant; a failed open leaves frame list, objects and live blocks as they were, and the pipe table too except for one cleared entry that was not in use |
| `UhciPipes.CloseKeepsInv` | drivers/usb/uhci/hid_kbd.c:148-166 | closing a pipe keeps the invariant and puts its three blocks on the free list, also when others wrote over its slots |
| `UhciPipes.OpenThenClose` | drivers/usb/uhci/hid_kbd.c:92-166 | open then close restores objects, live blocks and the pipe table, and the whole frame list whenever the slots touched were terminated before |
| `UhciTransfers.BeginKeepsInv` | drivers/usb/uhci/transfer.c:57-91 | starting any of the five transfers keeps the invariant, also when an allocation fails half-way |
| `UhciTransfers.SetupStage` | drivers/usb/uhci/transfer.c:134-137 | the controller reads an 8-byte SETUP to the device's endpoint 0 with toggle 0 |
| `UhciTransfers.DataStage` | drivers/usb/uhci/transfer.c:122-142 | then an IN with toggle 1 whose length is exactly the one announced in the setup packet, for every length 1..2048 |
| `UhciTransfers.StatusStage` | drivers/usb/uhci/transfer.c:144-147 | then a status stage in the other direction, with toggle 1 except for SET_ADDRESS, and a length field of one byte |
| `UhciTransfers.StagesInOrder` | drivers/usb/uhci/transfer.c:75-86 | following the link words from the queue head, the controller meets the stages in order and then stops |
| `UhciFinish.FinishKeepsInv` | drivers/usb/uhci/transfer.c:93-115 | finishing a transfer with any outcome keeps the invariant unless its freed queue head is still linked |
| `UhciFinish.DanglingIsUnsafe` | drivers/usb/uhci/transfer.c:212-216 | a failed GET_CONFIG whose slot still links to its queue head makes the frame list unsafe, from every state |
| `UhciFinish.FinishSafeExactly` | drivers/usb/uhci/transfer.c:212-219 | the frame list is safe after the end of a transfer if and only if it is not a failed GET_CONFIG with a slot still linked |
| `UhciLeaks.BeginExtends` | drivers/usb/uhci/transfer.c:117-154 | a started transfer adds exactly its own objects, touches no other and links its queue head from exactly its frames |
| `UhciLeaks.TransferLeavesExactly` | drivers/usb/uhci/transfer.c:57-325 | after a whole transfer, for every kind and outcome, older objects are untouched and the blocks left over are exactly: all after an early return, the setup packet for GET_DEVICE, short GET_CONFIG and SET_CONFIGURATION, none otherwise; slots that were terminated before and are terminated at the end are restored |
| `UhciLeaks.LeftOver` | drivers/usb/uhci/transfer.c:57-325 | spelled out: a success leaves the setup packet of GET_DEVICE, short GET_CONFIG and SET_CONFIGURATION; a failed wait leaves that of the short GET_CONFIG, nothing of the full one, and all blocks of the others |
| `UhciLeaks.FailedBeginLeavesExactly` | drivers/usb/uhci/transfer.c:59-73 | a transfer that fails in its allocations leaves exactly the blocks obtained before the failure behind, and touches no other object and no slot |
| `Endpoint.ExactlyOnce` | drivers/usb/uhci/hid_kbd.c:172-203 | over every interleaving of completions and service calls, reports delivered plus the one waiting are those before plus the error-free, NAK-free completions, in order |
| `Endpoint.RunInStep` | drivers/usb/uhci/hid_kbd.c:78-90 | over every interleaving the toggle is the parity of delivered reports, and an active descriptor carries it in its token and is what the queue head points at |
| `Endpoint.ServiceSettles` | drivers/usb/uhci/uhci_isr.c:37-44 | a second service call for the same interrupt changes nothing; after one, nothing waits and the descriptor is active |
| `Endpoint.AllDeliveredAfterService` | drivers/usb/uhci/hid_kbd.c:172-203 | after a run and a service call, everything completed has been delivered |
| `UhciService.ServiceFrom` | drivers/usb/uhci/hid_kbd.c:172-203 | servicing all pipes keeps the driver invariant |
| `UhciService.ServiceOnce` | drivers/usb/uhci/hid_kbd.c:174-202 | one pass of the service loop services each pipe in use exactly once and independently of the others |
| `UhciService.OpenedInStep` | drivers/usb/uhci/hid_kbd.c:123-130 | a pipe just opened is active with toggle 0, nothing waiting and nothing delivered |
| `UhciService.OpenedIsPolled` | drivers/usb/uhci/hid_kbd.c:92-135 | after an open, every window of the interval asked for, also across the wrap, has a slot that links to the pipe's queue head |
| `UhciDelivery.RunEndpoint` | drivers/usb/uhci/hid_kbd.c:172-203 | over every legal run that does not close the pipe, with any other opens, closes, transfers, blobs and initialisation in between, the pipe runs as its endpoint does on its own events |
| `UhciDelivery.DeliveredInEveryRun` | drivers/usb/uhci/hid_kbd.c:78-203 | from an open on, over every such run, each error-free, NAK-free completion is delivered exactly once, in order, and the toggle stays in step |
| `UhciDelivery.BusRunEndpoint` | drivers/usb/uhci/hid_kbd.c:172-203 | in particular over every interleaving of completions and service calls alone, on all pipes |
| `UhciDelivery.DeliveredExactlyOnce` | drivers/usb/uhci/hid_kbd.c:78-203 | and so is each good completion then delivered exactly once, in order |
| `UhciPolling.StepWrites` | drivers/usb/uhci/hid_kbd.c:61-166 | each step of the driver changes only the slots listed for it (all, the walk of the pipe opened or closed, the frames of the transfer started or terminated) and never writes a link to another pipe in use |
| `UhciPolling.LinkKeptExactly` | drivers/usb/uhci/hid_kbd.c:61-166 | over every legal run that does not close the pipe, a slot links to the pipe at the end if and only if it did at the beginning and no step wrote it |
| `UhciPolling.PolledExactly` | drivers/usb/uhci/hid_kbd.c:61-166 | from an open on, over every such run, a slot links to the pipe's queue head if and only if the pipe's walk covers it and no later initialisation, open, close or transfer wrote it |
| `UhciPolling.PolledWhileUnwritten` | drivers/usb/uhci/hid_kbd.c:61-76 | so a pipe whose slots are not written again is polled in every window of its interval, also across the wrap, for as long as the run lasts |
| `UhciPolling.SecondOpen` | drivers/usb/uhci/hid_kbd.c:61-146 | opening a second pipe leaves the first in use and unchanged, and takes its last slot if and only if the second walk covers the whole first walk |
| `UhciPolling.EqualIntervals` | drivers/usb/uhci/hid_kbd.c:61-146 | with equal intervals, if and only if the first slots agree modulo gcd(interval, 1024) |
| `UhciPolling.TwoKeyboards` | drivers/usb/uhci/hid_kbd.c:61-146 | two keyboards at interval 10 on a fresh driver: both opens succeed, and the second silences the first exactly when the frame numbers have the same parity |
| `UhciOnBus.PollsItsDevice` | drivers/usb/uhci/hid_kbd.c:45-135 | from an open on, over every legal run that does not close the pipe: its token decodes to IN, the address and endpoint asked for and eight bytes; chains end after the descriptor; an active descriptor is armed with interrupt on completion; its buffer pointer addresses the bytes that a completion writes and the next service call delivers |
| `UhciOnBus.OpenedPolls` | drivers/usb/uhci/hid_kbd.c:101-130 | so right after the open |
| `UhciOnBus.SetupRequest` | drivers/usb/uhci/transfer.c:62-66 | the eight setup bytes of each transfer decode to its standard request: direction, code, value, index and length (USB 2.0, section 9.3) |
| `UhciOnBus.BeginOnBus` | drivers/usb/uhci/transfer.c:75-91 | a started transfer as the controller finds it: SETUP of the request bytes, data stage into the caller's buffer, status stage, decoded, active and in order, behind a queue head that the next two frames lead to, or the current frame for a GET_CONFIG |
| `UhciPolling.NextSlotBound` | drivers/usb/uhci/hid_kbd.c:66-67 | a pipe's walk starts in the frame after the current one |
| `UhciRuns.FreshInv` | drivers/usb/uhci/controller.c:37-41 | the initialised driver satisfies the invariant |
| `UhciRuns.Next` | drivers/usb/uhci/transfer.c:57-325 | every step of the driver or the hardware keeps the invariant |
| `UhciRuns.FrameListAlwaysSafe` | drivers/usb/uhci/hid_kbd.c:61-166 | over every run of initialisation, opens, closes, transfers, blob allocations and frees, completions and service calls with no dangling GET_CONFIG, every slot is terminated or links to a live queue head, however slots were overwritten |
| `UhciRuns.SafeUnlessConfigFails` | drivers/usb/uhci/transfer.c:57-325 | in particular over every run in which no GET_CONFIG fails |
| `UhciRuns.ConfigFailureDangles` | drivers/usb/uhci/transfer.c:174-216 | a GET_CONFIG that fails with nothing in between leaves an unsafe slot, from every good state |
| `UhciRuns.FreshStarts` | drivers/usb/uhci/transfer.c:57-154 | on the initialised driver every transfer gets its blocks and every open succeeds |
| `UhciRuns.ConfigFailureHappens` | drivers/usb/uhci/transfer.c:174-216 | so the failure happens: a GET_CONFIG that times out as the first transfer leaves an unsafe slot, for every buffer address and command |
| `UhciRoom.BeginGrants` | drivers/usb/uhci/transfer.c:57-91 | with 320 bytes left in the buffer every transfer starts |
| `UhciRoom.OpenGrants` | drivers/usb/uhci/hid_kbd.c:92-135 | with 192 bytes left and a free table entry an open succeeds and takes the first free entry |
| `UhciBlobs.BorrowKeepsInv` | drivers/usb/uhci/enumerate.c:197-198 | allocating the configuration blob from the same heap keeps the driver invariant |
| `UhciBlobs.ReturnKeepsInv` | drivers/usb/uhci/enumerate.c:212-215 | so does freeing it, whatever pipes and transfers exist |
| `UhciBlobs.BorrowThenReturn` | drivers/usb/uhci/enumerate.c:197-215 | allocating and freeing the blob leaves objects and slots as they were |
| `UhciEnumeration.EnumerationIsRun` | drivers/usb/uhci/enumerate.c:155-242 | from every good state with room and a free table entry, the whole enumeration of a keyboard (five transfers, blob allocated, filled and freed, pipe opened) is a legal run that ends with the pipe open, polling the address and endpoint passed in, and the frame list safe |
| `UhciDriver.Driver.InitializeFrameList` | drivers/usb/uhci/controller.c:37-41 | terminates all 1024 slots and nothing else |
| `UhciDriver.Driver.FindFreePipe` | drivers/usb/uhci/hid_kbd.c:99-100 | the scan of the pipe table finds the first free entry |
| `UhciDriver.Driver.FillPipe` | drivers/usb/uhci/hid_kbd.c:101-110 | the fields of the table entry, written one by one |
| `UhciDriver.Driver.OpenPipe` | drivers/usb/uhci/hid_kbd.c:92-146 | the code on memory takes exactly the step Open, failure paths included; the pipe it opens asks exactly the device address and endpoint number passed in, for eight bytes, with an armed descriptor behind its queue head |
| `UhciDriver.Driver.FailOpen` | drivers/usb/uhci/hid_kbd.c:137-142 | the failure label gives back exactly what was obtained and clears the entry |
| `UhciDriver.Driver.SchedulePipe` | drivers/usb/uhci/hid_kbd.c:119-133 | the field writes of descriptor and queue head and the stride loop give the state of an opened pipe |
| `UhciDriver.Driver.ClosePipe` | drivers/usb/uhci/hid_kbd.c:148-166 | the code on memory takes exactly the step Close; bad identifiers change nothing |
| `UhciDriver.Driver.Rearm` | drivers/usb/uhci/hid_kbd.c:78-90 | writing token, status and queue head in place is the endpoint step Rearm |
| `UhciDriver.Driver.ServicePipe` | drivers/usb/uhci/hid_kbd.c:174-202 | the loop body on one pipe is the endpoint step Service |
| `UhciDriver.Driver.Service` | drivers/usb/uhci/hid_kbd.c:172-203 | the loop over the table is the service step of the state machine and keeps the invariant |
| `UhciControl.SetDeviceAddress` | drivers/usb/uhci/transfer.c:57-115 | the function written out (allocations, field writes, both frame slots, the running test, the wait, the stall branch, frees in order) is the step Begin followed by the step Finish, with its result; the outcome of the wait is exactly the one the polls decide, success and timeout in both directions; r is 0 or 1, and 1 exactly when all blocks were granted, the controller runs, the first retired poll is good and the status word shows no stall |
| `UhciControl.GetDeviceDescriptor` | drivers/usb/uhci/transfer.c:117-172 | likewise, with a data stage and the setup packet not given back; r is 1 exactly when all blocks were granted, the first retired poll is good and the status word shows no stall |
| `UhciControl.GetConfigurationDescriptor` | drivers/usb/uhci/transfer.c:174-223 | likewise, with one frame slot that a failed wait leaves linked; r is 1 exactly when all blocks were granted and the first retired poll is good |
| `UhciControl.GetFullConfiguration` | drivers/usb/uhci/transfer.c:225-274 | likewise for every length, and the setup packet given back; r is 1 exactly when all blocks were granted and the first retired poll is good |
| `UhciControl.SetConfiguration` | drivers/usb/uhci/transfer.c:276-325 | likewise, without data stage and running test; r is 1 exactly when all blocks were granted, the first retired poll is good and the status word shows no stall |
| `Terminal.RowAndColumn` | drivers/screen/screen.c:297-319 | row and column of an offset lie on the grid and give the offset back |
| `Terminal.PositionOfPoint` | drivers/screen/screen.c:281-319 | the offset of a point gives its row and column back |
| `Terminal.PrintAtWf` | drivers/screen/screen.c:553-609 | printing keeps the grid and the cursor well formed, scrolling included |
| `Terminal.PrintAllComposes` | drivers/screen/screen.c:94-123 | printing a concatenation leaves the same cells and cursor as printing one string after the other |
| `Terminal.AdvancePoint` | drivers/screen/screen.c:574-604 | column and row after a character, with wrap and newline, are the next position, and the grid scrolls exactly when the row leaves it |
| `Terminal.PrintAtPointOnGrid` | drivers/screen/screen.c:574-607 | printing by column and row, as the framebuffer path does, is printing by position, as the VGA path does, on every point of the grid |
| `Terminal.PrintedCells` | drivers/screen/screen.c:171-197 | after a print the cell holds the byte, a space for NUL, and no other cell changed; in the last cell the screen moves up by one row, which leaves the byte one row higher and the last row blank |
| `Terminal.PrintedNewline` | drivers/screen/screen.c:174-176 | a newline goes to the start of the next row and shows nothing; below the last row it scrolls |
| `Terminal.PrintText` | drivers/screen/screen.c:108-115 | a text that fits stands in the cells from the cursor on, and no other cell changes |
| `Terminal.PrintLines` | drivers/screen/screen.c:108-115 | lines shorter than the grid is wide, joined by newlines, each stand on a row of their own from column 0 |
| `Terminal.ClearedCells` | drivers/screen/screen.c:269-277 | a cleared screen is all spaces with the cursor at the origin |
| `VgaConsole.PrintedRefines` | drivers/screen/screen.c:171-202 | printing into video memory is printing on the terminal, wrap and scroll included |
| `VgaConsole.ScrolledCells` | drivers/screen/screen.c:184-197 | moving the rows up and zeroing the last one scrolls the cells |
| `VgaConsole.VgaConsole.SetCursorOffset` | drivers/screen/screen.c:254-258 | the two cursor registers hold the position |
| `VgaConsole.VgaConsole.GetCursorOffset` | drivers/screen/screen.c:217-225 | the two registers give the position back |
| `VgaConsole.VgaConsole.MemoryCopy` | libc/mem.c:3-10 | memory_copy within video memory, for any two ranges: also when they overlap, byte j of the result comes from where the forward loop takes it |
| `VgaConsole.VgaConsole.Scroll` | drivers/screen/screen.c:184-197 | 24 row copies and a zeroed row move the screen up by one line |
| `VgaConsole.VgaConsole.PrintChar` | drivers/screen/screen.c:158-203 | print_char for every column and row: the red E outside the grid, otherwise cell, newline, scroll, cursor and returned offset; in video memory the byte and its attribute stand at the position, or one row higher after a scroll, and no other byte changed |
| `VgaConsole.PrintedBytes` | drivers/screen/screen.c:171-197 | the bytes of video memory after a print, with and without a scroll |
| `VgaConsole.MarkedCorner` | drivers/screen/screen.c:163-166 | the error mark is a red E on white in the last cell and nothing else |
| `VgaConsole.VgaConsole.PrintOnTerminal` | drivers/screen/screen.c:158-203 | it is one step of the terminal, the cursor following or staying as the automatic cursor is on or off, and the offset returned is where printing goes on |
| `VgaConsole.VgaConsole.RowAndColumnOf` | drivers/screen/screen.c:297-319 | the conversions name the cell of the offset |
| `VgaConsole.VgaConsole.KPrintAt` | drivers/screen/screen.c:94-123 | kprint_at and kprint print the whole string on the terminal from the point given or from the cursor, with the automatic cursor on or off; from a point off the grid the first character is lost to the error mark and the others go where its offset says, or are all lost below the grid |
| `VgaConsole.VgaConsole.PrintOff` | drivers/screen/screen.c:109-115 | the loop from a point off the grid |
| `VgaConsole.VgaConsole.ClearScreen` | drivers/screen/screen.c:269-277 | leaves the cleared terminal |
| `Framebuffer.DrawRenders` | drivers/screen/screen.c:578-592 | drawing a cell into a rendered framebuffer renders the grid with that character, and changes nothing outside the grid |
| `Framebuffer.ScrollRenders` | drivers/screen/screen.c:533-547 | moving lines up and blanking the last row of cells renders the scrolled grid |
| `Framebuffer.ClearRenders` | drivers/screen/screen.c:504-506 | filling with the background renders blanks |
| `Framebuffer.AtPixel` | drivers/screen/framebuffer_console.c:74-80 | the pixel at (x, y) is the word y strides and x words into the buffer |
| `Framebuffer.RenderedPictures` | drivers/screen/framebuffer_console.c:70-81 | a framebuffer that shows the grid shows every cell as the picture of its character: bit 7 of each font row leftmost, set bits foreground, the rest and the ninth column background |
| `FbConsole.FbConsole.Use` | drivers/screen/screen.c:424-472 | the grid is set up from the geometry; it fails exactly when no cell fits, and the console is active exactly when it does not fail; a failure changes nothing else, a first use puts the cursor at the origin, a later one clamps it to the grid and changes nothing on a console in use |
| `FbConsole.FbConsole.FillRect` | drivers/screen/screen.c:474-498 | fills exactly the rectangle clipped to the screen |
| `FbConsole.FbConsole.DrawGlyph` | drivers/screen/framebuffer_console.c:48-83 | draws exactly the glyph, or nothing unless the depth is 32 bits and the glyph fits |
| `FbConsole.FbConsole.Scroll` | drivers/screen/screen.c:511-551 | the framebuffer shows the scrolled grid and nothing outside it changes |
| `FbConsole.FbConsole.Clear` | drivers/screen/screen.c:500-509 | the framebuffer shows the cleared terminal and nothing outside the grid changes |
| `FbConsole.FbConsole.PrintChar` | drivers/screen/screen.c:553-609 | print at any point or at the cursor: the framebuffer shows the terminal after that character, which off the grid means no character but the same cursor and scroll; the offset is its cursor; on the grid this is printing at the point's position and nothing outside the grid changes; the pixels of the cell are the picture of the character printed, a space for NUL, one row higher after a scroll |
| `FbConsole.FbConsole.Put` | drivers/screen/screen.c:150-157 | so does print_char, with the cursor written back or not |
| `FbConsole.FbConsole.GetCursorOffset` | drivers/screen/screen.c:205-213 | gives the cursor |
| `FbConsole.FbConsole.SetCursorOffset` | drivers/screen/screen.c:228-249 | sets the cursor to any cell of the grid; a negative offset gives the origin and one past the grid its column in the last row |
| `FbConsole.FbConsole.RowAndColumnOf` | drivers/screen/screen.c:297-319 | the conversions name the cell of the offset |
| `FbConsole.FbConsole.KPrintAt` | drivers/screen/screen.c:94-123 | kprint_at and kprint print the whole string on the terminal the framebuffer shows; from a point off the grid the first character is lost and the others go on from where it left the cursor |
| `FbConsole.FbConsole.Replay` | drivers/screen/screen.c:500-609 | over every run of clears and prints, at any points, the framebuffer equals the rendering of the terminal; pixels outside the grid never change while the points are on it |
| `Consoles.PrintBoth` | drivers/screen/screen.c:150-203 | from equal cells on 80x25, with the cursors wherever they are and the automatic cursor on or off, every character at every point of the grid, or at a common cursor, leads to equal cells and equal offsets, scrolling included; the cursors agree afterwards if and only if the automatic cursor is on or the VGA cursor already sat at the next position |
| `Consoles.KPrintBoth` | drivers/screen/screen.c:94-123 | so does every string |
| `Consoles.CursorsPart` | drivers/screen/screen.c:199-201 | with the automatic cursor off, one letter at the top left of screens that look alike parts their cursors |
| `ConfigBlob.SplitConcat` | drivers/usb/uhci/enumerate.c:75-90 | walking the bytes of a well-formed descriptor list meets exactly that list, whatever follows it in the buffer |
| `ConfigBlob.ChoiceUnique` | drivers/usb/uhci/enumerate.c:74-97 | at most one interface is the one to choose |
| `ConfigBlob.PickInterface` | drivers/usb/uhci/enumerate.c:69-96 | pass 1 finds the last boot keyboard if there is one, otherwise the first interface, and says whether there is any |
| `ConfigBlob.FindEndpoint` | drivers/usb/uhci/enumerate.c:99-119 | pass 2 finds the first interrupt-IN endpoint whose nearest preceding interface has the chosen number and alternate setting, and says whether there is one |
| `ConfigBlob.ParseConfigBlob` | drivers/usb/uhci/enumerate.c:62-128 | returns 1 exactly when interface and endpoint exist, and then the device holds them; null arguments and short blobs change nothing; without an endpoint the interface is still recorded; records shorter than their structure are read as the code reads them |
| `ConfigBlob.ParseDescriptors` | drivers/usb/uhci/enumerate.c:62-128 | on the bytes of every well-formed descriptor list the parser decides about exactly that list |
| `ConfigBlob.KeyboardBehindMouse` | drivers/usb/uhci/enumerate.c:74-119 | for instance a device with a boot mouse before its boot keyboard: the keyboard and its own interrupt-IN endpoint are chosen |
| `EventRing.PushContents` | drivers/keyboard/keyboard_common.c:79-82 | a push appends while fewer than 255 items wait and is dropped otherwise |
| `EventRing.AdvanceContents` | drivers/keyboard/keyboard_common.c:190-195 | the slot at the tail is the oldest item, and advancing drops it |
| `EventRing.RingRefinesQueue` | drivers/keyboard/keyboard_common.c:79-195 | over every interleaving of pushes with the three steps of the reader, the ring is a FIFO of 255 items that drops new ones when full |
| `EventRing.ReadsArePrefix` | drivers/keyboard/keyboard_common.c:79-195 | the items read are always a prefix of those accepted, and the rest is still waiting |
| `EventRing.Buffer.Put` | drivers/keyboard/keyboard_common.c:79-82 | the array code appends or drops |
| `EventRing.Buffer.Take` | drivers/keyboard/keyboard_common.c:190-195 | the array code hands out the oldest item, or nothing when empty |
| `HidReport.StepAbout` | drivers/keyboard/keyboard_usb.c:243-276 | one report decides about a usage only when it comes or goes, once for every slot it fills |
| `HidReport.ReleasesFirst` | drivers/keyboard/keyboard_usb.c:243-276 | all releases of a report come before all its presses |
| `HidReport.AlternatesExactly` | drivers/keyboard/keyboard_usb.c:223-281 | over every run of reports, presses and releases of a usage take turns, starting with a press, if and only if it never comes or goes filling more than one slot; then it is held exactly when the latest report says so |
| `HidReport.DistinctReportsAlternate` | drivers/keyboard/keyboard_usb.c:223-281 | so they do for all usages when every report lists its keys once |
| `HidReport.FirstReportPresses` | drivers/keyboard/keyboard_usb.c:259-276 | the first report presses a usage once for every slot it fills |
| `HidReport.RollOverDoesNotAlternate` | drivers/keyboard/keyboard_usb.c:259-276 | a roll-over report presses one usage exactly six times, so presses and releases do not take turns |
| `Modifiers.HidBits` | drivers/keyboard/keyboard_usb.c:33-45 | what the modifier byte says about the bits of each pair |
| `Modifiers.DispatchedBit` | drivers/keyboard/keyboard_common.c:105-129 | a side key writes its bits with its own state and leaves all others |
| `Modifiers.PairTransition` | drivers/keyboard/keyboard_usb.c:139-154 | after the transitions of one report the right bit follows the right key; the shared bit follows the right key when that moves, else the pair |
| `Keyboard.CapsOrShiftShifts` | drivers/keyboard/keyboard_common.c:256-261 | the shifted table is chosen if and only if caps lock or shift is set |
| `Keyboard.ReportPair` | drivers/keyboard/keyboard_usb.c:223-281 | what one whole report, with its releases and presses, does to the bits of a pair |
| `Keyboard.ModifiersExact` | drivers/keyboard/keyboard_usb.c:223-281 | over every run of reports the right bit is that of the latest report, and the shared bit is too, except exactly while the left key alone has been held since the right key was lifted under it |
| `Keyboard.LiftedShiftIsLost` | drivers/keyboard/keyboard_common.c:122-128 | both shift keys and then the left one alone: shift is held and its bit is clear |
| `Keyboard.NoStuckModifier` | drivers/keyboard/keyboard_common.c:94-129 | no modifier sticks: a tracked bit is set only while one of its keys is held |
| `KeyboardLayer.Contains` | drivers/keyboard/keyboard_usb.c:47-51 | the scan says whether the usage occurs |
| `KeyboardLayer.SidesOf` | drivers/keyboard/keyboard_common.c:105-117 | the switch gives each side key its own bit and the shared bit of its pair, and nothing to other keys |
| `KeyboardLayer.KeyboardLayer.constructor` | drivers/keyboard/keyboard_common.c:153-161 | no modifier set and both queues empty |
| `KeyboardLayer.KeyboardLayer.UpdateMods` | drivers/keyboard/keyboard_common.c:98-129 | the lock toggles and the switch on side keys are the modifier update of an event |
| `KeyboardLayer.KeyboardLayer.DispatchEvent` | drivers/keyboard/keyboard_common.c:94-141 | updates the modifiers, queues the event with the modifiers after it, and queues a pressed character |
| `KeyboardLayer.KeyboardLayer.EmitModifierDeltas` | drivers/keyboard/keyboard_usb.c:139-154 | the loop over the table sends exactly the transitions between the two words |
| `KeyboardLayer.KeyboardLayer.ReleaseKeys` | drivers/keyboard/keyboard_usb.c:243-256 | the release loop sends a release for every usage that is gone |
| `KeyboardLayer.KeyboardLayer.PressKeys` | drivers/keyboard/keyboard_usb.c:258-276 | the press loop sends a press for every usage that is new, with the character under the current modifiers |
| `KeyboardLayer.KeyboardLayer.OnBootReport` | drivers/keyboard/keyboard_usb.c:222-281 | a report of a registered, enabled keyboard is the step OnReport and becomes the last report; any other changes nothing |
| `KeyboardLayer.KeyboardLayer.ReadEvent` | drivers/keyboard/keyboard_common.c:190-195 | hands out the oldest event, if any |
| `KeyboardLayer.KeyboardLayer.ReadChar` | drivers/keyboard/keyboard_common.c:174-179 | hands out the oldest character, or NUL when there is none |
| `Editor.EditAllKeepsWf` | kernel/shell/command_line.c:49-114 | over every run of keys the line is printable and at most 1999 characters long |
| `Editor.MovesKeepText` | kernel/shell/command_line.c:78-100 | cursor keys never change the text |
| `Editor.BackspaceIsLeftDelete` | kernel/shell/command_line.c:59-76 | backspace is left and then delete |
| `Editor.InsertThenBackspace` | kernel/shell/command_line.c:59-67 | backspace undoes an insertion |
| `Editor.Typing` | kernel/shell/command_line.c:102-111 | typing a string puts at the cursor exactly as much of it as there is room for |
| `Editor.Ignored` | kernel/shell/command_line.c:52-55 | Enter, and every code that neither edits nor prints, leaves the line alone |
| `Editor.AtTheEdges` | kernel/shell/command_line.c:59-90 | backspace and left do nothing at the beginning of the line, delete and right nothing at its end |
| `Editor.EditingKeys` | kernel/shell/command_line.c:59-100 | what each of the six editing keys does with the character next to the cursor |
| `Editor.TypeCommand` | kernel/shell/command_line.c:49-114 | typing a line of up to 1999 characters and Enter leaves exactly that line |
| `CommandLine.CommandLine.BufferHoldsText` | kernel/shell/command_line.c:6-8 | the terminator sits at the length kept, so strlen is that length and the string is the text of the line |
| `CommandLine.CommandLine.DeleteAt` | kernel/shell/command_line.c:34-39 | everything behind the position moves down by one and nothing else changes |
| `CommandLine.CommandLine.InsertAt` | kernel/shell/command_line.c:41-47 | everything from the position on moves up by one and nothing else changes |
| `CommandLine.CommandLine.HandleCommandLine` | kernel/shell/command_line.c:49-114 | for every key code the buffer and cursor take the editor step, inside the 2000 bytes; true exactly for Enter; Enter and every code that neither edits nor prints leave text and cursor as they were; a null buffer changes nothing |
| `CommandLine.CommandLine.FlushCommandLine` | kernel/shell/command_line.c:116-123 | leaves the empty line |
| `CommandLine.CommandLine.Drain` | kernel/shell/shell.c:45-49 | draining the queue applies every press in order and leaves the flag of the last press; earlier Enters are forgotten |
| `CommandLine.LastPressCounts` | kernel/shell/shell.c:45-49 | only the last press decides whether the command is complete |
| `CommandLine.CommandLine.ReadCommand` | kernel/shell/shell.c:45-49 | a line of up to 1999 printable characters and Enter, drained on the empty line: the flag is set and the buffer spells exactly the line |
| `KeyStream.OnReportAppends` | drivers/keyboard/keyboard_usb.c:223-281 | one report appends its events to the queue as far as there is room; neither the events nor the modifiers depend on the queue |
| `KeyStream.HandAppends` | drivers/keyboard/keyboard_usb.c:223-281 | so does a report for any table entry, of any keyboard |
| `KeyStream.OneKeyboard` | drivers/keyboard/keyboard_usb.c:223-281 | the layer after any number of reports of one keyboard: modifiers, last report and events are those of the run of these reports |
| `KeyStream.ReportBytes` | drivers/keyboard/keyboard_usb.c:231-259 | byte 0 of a report holds the modifiers, bytes 2 to 7 the usages |
| `KeyStream.QueuesOfStream` | drivers/keyboard/keyboard_common.c:131-141 | without a reader the two queues hold the oldest events of the stream and the oldest characters among its presses, in order |
| `KeyEvents.BurstDecisions` | drivers/keyboard/keyboard_usb.c:223-281 | the events of a report are those of its modifier keys and then, in order, the coded presses and releases of its decisions |
| `KeyEvents.BurstStrokes` | drivers/keyboard/keyboard_usb.c:243-276 | one report presses the codes of a key exactly when the key is new and releases them exactly when it is gone, once for every slot it fills |
| `KeyEvents.StreamTrace` | drivers/keyboard/keyboard_usb.c:223-281 | over every run of reports, the events that carry a key's codes are its presses and releases as the reports decide them |
| `KeyEvents.KeysAlternate` | drivers/keyboard/keyboard_usb.c:223-281 | so they take turns, starting with a press, if and only if the key never comes or goes filling more than one slot; then it is down exactly when the latest report holds it |
| `KeyMeanings.PressGives` | drivers/keyboard/keyboard_usb.c:258-274 | a press gives the shifted or the plain character at the usage's scan code, shifted exactly under caps lock or shift, and the extended code when there is no character |
| `KeyMeanings.ReleaseGives` | drivers/keyboard/keyboard_usb.c:246-252 | a release gives the extended code, or the plain character when there is none |
| `KeyMeanings.LocksToggle` | drivers/keyboard/keyboard_common.c:98-103 | a press of caps, num or scroll lock flips exactly its own bit, a second one restores the word, a release changes nothing |
| `KeyMeanings.CapsChangesTable` | drivers/keyboard/keyboard_common.c:256-261 | one press of caps lock changes the table characters come from while shift is up |
| `KeyMeanings.EditingUsages` | drivers/keyboard/keyboard_usb.c:84-113 | the presses of Enter, backspace, delete, left, right, home and end do just that to the line |
| `KeyMeanings.OtherUsages` | drivers/keyboard/keyboard_usb.c:84-113 | function keys have consecutive codes, caps lock its own; keys that do not edit leave the line alone |
| `KeyMeanings.ArrowOwned` | drivers/keyboard/keyboard_usb.c:84-113 | a key with an extended code and no character shares its code with no other key |
| `KeyMeanings.ShiftedKey` | drivers/keyboard/keyboard_usb.c:223-281 | shift and a key in one report: the press of shift, then that of the shifted character, each with the modifiers after it |
| `InputPath.ServedProject` | drivers/usb/uhci/hid_kbd.c:172-203 | a service call hands over exactly the report that waits on a pipe, once |
| `InputPath.RunHandsOver` | drivers/usb/uhci/hid_kbd.c:172-203 | over every interleaving of driver steps, hardware, and reads, the reports of a pipe handed to the keyboard layer are exactly those its log gains, in order |
| `InputPath.RunLayer` | drivers/keyboard/keyboard_usb.c:223-281 | over every such run, with any number of keyboards, the modifiers and last reports are a function of the reports handed over, whatever the queue and the reader do |
| `InputPath.EventsConservedExactly` | drivers/keyboard/keyboard_common.c:79-82 | over every such run, events read followed by those queued are those queued before followed by all those made, if and only if no service call found too little room; otherwise events are lost for good |
| `InputPath.RunLine` | kernel/shell/shell.c:45-49 | until it is flushed, the line is what the presses read make of it and the flag says whether the last is Enter, also when interrupts add events between two reads |
| `InputPath.EndToEnd` | drivers/usb/uhci/hid_kbd.c:172-203 | from an open on, over every interleaving that does not close the pipe: good completions of the pipe reach the keyboard layer exactly once and in order, the layer is a function of the reports handed over, events are conserved exactly when nothing was dropped, and the line is what the presses read make of it |
| `InputPath.OneKeyboardTypes` | kernel/shell/shell.c:45-49 | when only this keyboard reports, its completed reports alone determine the modifiers (exactly as ModifiersExact says) and, once all is read and nothing dropped, the command line, whatever the interleaving |
| `Typist.TapsType` | drivers/keyboard/keyboard_usb.c:223-281 | on every layout, keys tapped one after another make exactly their presses, in order, and leave nothing held |
| `Typist.QwertyLetter` | drivers/keyboard/keyboard_common.c:39-48 | on the QWERTY tables the usages 4 to 29 are the letters, capital under shift or caps lock |
| `Typist.WordTyped` | drivers/keyboard/keyboard_usb.c:58-70 | every word of up to 1999 lower-case letters and spaces tapped on QWERTY, and Enter: the presses are the word and Enter, and the line is the word |
| `Typist.WordFromTheBus` | kernel/shell/shell.c:45-49 | when those are the reports a keyboard completed on the bus, the line is exactly the word and the command complete, over every interleaving that drops nothing, once everything has been read |
| `CString.Length` | libc/string.c:85-90 | the place of the first NUL |
| `CString.Reverse` | libc/string.c:75-83 | the string is reversed in place and the rest of the buffer unchanged |
| `Numerals.ValueOfNumeral` | libc/string.c:20-43 | reading a printed number gives the number back |
| `Numerals.NumeralCanonical` | libc/string.c:20-43 | printed numbers have no leading zero |
| `Numerals.NumeralUnique` | libc/string.c:20-43 | there is no other canonical numeral of the same value |
| `Numerals.SignedRoundTrip` | libc/string.c:6-18 | reading a printed signed number gives the number back |
| `Numerals.ValueOfPadded` | libc/string.c:46-54 | reading a numeral of fixed width gives the number back if and only if it fits |
| `Numerals.TrimmedIsStripped` | libc/string.c:56-72 | the trimmed numeral is the full one with its leading zeros stripped |
| `Numerals.Examples` | libc/string.c:6-72 | a few numerals, decimal, signed, hexadecimal and padded |
| `Printers.IntToAscii` | libc/string.c:6-18 | the buffer holds exactly the signed numeral |
| `Printers.UintToAscii` | libc/string.c:20-43 | the buffer holds exactly the numeral |
| `Printers.HexToString` | libc/string.c:46-54 | the buffer holds exactly sixteen digits that read back as the value |
| `Printers.HexToStringTrimmed` | libc/string.c:56-72 | filling from the right and shifting in the same buffer leaves the hexadecimal numeral, which is the full one with leading zeros stripped |

## Left out

- Port I/O, interrupt and timer set-up, assembly, the UEFI loader and PCI scanning: no unbounded property. What the driver reads from the hardware (frame number, status words, whether the controller runs) are parameters.
- kmalloc, printf, shell command dispatch, refresh_command_visual, kprint_backspace, lock LEDs and auto-echo: outside the model, since they keep no state over a run beyond what the modelled parts already hold, or only compose modelled calls.
- The PS/2 keyboard path, registration of keyboards and layout switching; the usage, layout and font tables are arbitrary, except that the space glyph is blank and layout entries are below 0x80; the usage table and the QWERTY tables are written out in Typist, the AZERTY tables are not.
- UhciTransfers.BeginKeepsInv: in the state machine the five transfers are one pair Begin and Finish with a table of their differences; UhciControl writes the five functions out. Log messages and the acknowledgement of USBERRINT are not modelled.
- UhciTransfers.StagesInOrder: the walk of the controller over link words carries a step bound, one more than the number of stages; it ends before the bound.
- Heap.AllocKeepsInv: it is stated for alignment 16, which every caller in the kernel uses, and for requests that do not wrap; other alignments are treated in HeapAlignments and wrapping sizes in HeapLimits. The buffer is taken to lie below 2^32 and not at address 0.
- Allocator.Allocator.AlignedAlloc: the size and link fields of headers are two maps from header address instead of bytes of the buffer, and rounding to a power of two is written with division. A header that a caller overwrites is outside the model.
- UhciRuns.FrameListAlwaysSafe: control transfers run one at a time; pipe operations, blob allocations, completions and service calls may come between their start and end. Each operation of the driver is one step: a service interrupt inside uhci_kbd_open_interrupt_in, which marks its entry in use before its descriptor exists (drivers/usb/uhci/hid_kbd.c:101-117), would read a null descriptor and is not among the runs. It excludes exactly the steps of UhciFinish.Dangles.
- UhciWords.WaitForTransfer: time passes as a sequence of polled status words, one per millisecond; the status examined after the loop is the one the last poll saw.
- UhciControl.SetDeviceAddress: the status word examined after the wait is a parameter, and the setup packet is filled as it is allocated; so for the other four.
- HeapAlignments.SoundExactly: requests whose 64-bit sums wrap are excluded, as in HeapAlignments.Legal; HeapLimits treats them for alignment 16.
- UhciEnumeration.EnumerationIsRun: port resets, keyboard registration and the parse itself are not steps of the run.
- UhciDriver.Driver.Service: delivering a report appends it to a log of the pipe; InputPath hands it to the keyboard layer.
- InputPath.EndToEnd: a service call and one read of the shell are each one step; the table of keyboards does not change during the run; bytes missing from a completed report count as zero.
- InputPath.OneKeyboardTypes: all reports handed over come from the one pipe; with several keyboards the layer is the function of InputPath.RunLayer.
- FbConsole.FbConsole.PrintChar: the depth is the 32 bits the loader always sets (bootloader/uefi/main.c:277); so for Put, KPrintAt and Replay. Products of pixel coordinates are taken not to wrap at 2^32. What a glyph off the grid does to the margin around the grid is not stated.
- FbConsole.FbConsole.Use: glyphs are 8 by 16 pixels, the only size framebuffer_console sets, the framebuffer is ready, and its stride is at least its width.
- VgaConsole.VgaConsole.KPrintAt: the case in which no screen is available, where printing returns at once, is not modelled; offsets are taken not to wrap.
- ConfigBlob.ParseConfigBlob: the structure of every record the walk meets lies inside the buffer, since the code would read past it otherwise; bytes are integers below 256 and the attribute and direction masks are written with division.
- EventRing.RingRefinesQueue: an interrupt runs to completion before the reader continues, as on one processor; compiler and memory ordering are not modelled.
- Keyboard.ModifiersExact: one USB keyboard is the only source of modifier events.
- KeyboardLayer.KeyboardLayer.OnBootReport: the last report is kept as a value (modifier byte and six usages) instead of eight bytes; the reserved byte is dropped.
- CommandLine.CommandLine.HandleCommandLine: the screen refresh is left out.
- CommandLine.CommandLine.Drain: no interrupt adds events while this method drains the queue; InputPath.RunLine allows them between any two reads.
- Printers.IntToAscii: the most negative int is excluded, since negating it is undefined in C.
