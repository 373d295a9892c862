# Verified models of the hooking engine, its file formats and the IPC transport

The project models the parts of the server module whose mistakes would be hardest to see, and proves what they promise. All of it is Dafny 4.11; `dafny verify dfyconfig.toml` checks everything.

**Hook transactions** (`HookLayers`, `Detour*`). Memory is a 2^32-byte sequence. A hook is a layer over program bytes and one pointer variable; `HookLayers` says what patching, nesting and removing mean and that removing everything gives the program back. `DetourTransaction.Detours` is the API as a class over that memory, with its pending lists and errors: begin, attach, detach, update thread, abort and commit, in the x86 form (30-byte code area, 5-byte jump). Its `Valid()` holds in every reachable state: attached and pending hooks keep what they captured, their trampolines carry it, and removing every hook leads back to the bytes the object was built over. `TrampolineHeap`, `TrampolineAllocator` and `TrampolineRegions` are the in-place free lists in 64 KB regions.

**Instruction relocators.** `X86Flow`, `X86Length`, `Arm64Isa` and `Ia64Isa` are small reference semantics written from the architecture manuals and not from the copiers: relative transfers, where an instruction ends, what it does, which formats have a displacement. `X86Disasm`/`X86Copier`, `Arm64Assemble`/`Arm64Immediate`/`Arm64Relocation` and `Ia64` are the copiers. `X86Relocation`, `X86Sizes`, `Arm64Copy` and `Ia64Copy` hold the two against each other and say exactly when a copied instruction is the whole instruction and keeps its meaning. The x86 copier is proved for any opcode tables whose rows have the shape and the sizes of their opcodes; `X86Opcodes` holds the real ones and shows that they do.

**Image files.** `ImageData` is the payload store, a flat buffer refining a map. `ImportEmit`, `ImportWriter` and `ImportRead` are the two-pass writer of the `.detour` section and its reader, `ImportCallbacks` what the callbacks of an edit ask for, `ImportEdit` the editing and resetting of the import list, `UpdateImports` the import block injected into a new process.

**IPC.** `IpcFraming` is the frame format. `IpcTransport` interleaves the sending thread with the IPC thread at the granularity of its locks and handlers, over any number of connections; `IpcInbound` is the reader and the swap-drain; `IpcClients.IpcClient` is the object whose handlers are those steps.

**Override planner.** `PlannerEdits` and `MapPlanner` are the page's edits, `PlannerDiff` the SQL export, `OverrideTable` the table, its statements and their literals, `PlannerText` the text of whole tuples and updates, `PlannerCells` what the game then applies.

## Where the code and its promise part

Each of these is stated by a lemma with the exact condition.

- A short jump under a 0x66 prefix, a LOOP, JCXZ or 16-bit near jump out of reach, and XBEGIN do not survive relocation; all other relative transfers do (`X86Relocation.TransferKept`, with `AbortSpoiled` for XBEGIN).
- The copier sizes every mod/rm byte as a 32-bit address. It takes an instruction for longer or shorter than it is exactly when a 0x67 prefix makes a difference to its addressing form, or when it moves a control or debug register with a mod other than 11, which the processor ignores (`X86Sizes.LengthRead`, `AddressMisread`, `ControlMisread`).
- The test for the end of a function takes 0xE0, a LOOPNE, for one (`X86Trampoline.EndsFunctionMeans`).
- The three-bit `obTarget` field makes thread fix-up inexact: on detach exactly for the end of runs longer than seven bytes, on attach exactly for the entry of runs of 8 or 16 bytes (`X86Trampoline.DetachFixup`, `AttachFixup`, and for every commit `DetourCommit.ThreadResumes`). A thread at the end of a run that fills a detached target goes on into the trampoline of a function right behind it if that function's attach is listed later, and stays at its patched entry if earlier (`DetourCommit.DetachMovesEnd`).
- A thread updated outside a transaction is suspended and listed, and the next begin forgets it (`DetourTransaction.Detours.UpdateThread`, `TransactionBegin`).
- Two attaches to one target in one transaction are not chained (`HookLayers.UnchainedPair`), and commit applies requests latest first.
- A pointer attached through a jump stub comes back holding the function behind the stub (`HookLayers.PointerRestoredIff`).
- ARM64 copies that invert AL or NV, test register 17 in a far form, turn ADR into ADRP and a 32-bit addition beyond 4 GB or for register 31 (where the addition writes the stack pointer), or re-aim a literal load between 1 MB and 2 MB away change their meaning (`Arm64Copy.CopyMeans`, `BccKept`, `CbzKept`, `TbzKept`, `AdrKept`, `LdrNearIff`); every other one that the reference semantics knows keeps it.
- IA-64 long branches and global pointers lose their low four bits (`BrlRoundTrip`, `GpRoundTrip`).
- `CImageData::Set` deletes the old record before it knows whether it can store the new one (`ImageData.CImageData.Set`).
- The two-pass size forgets the padding of saved headers. The file alignment makes up for it whenever it is a multiple of eight; with a smaller one headers whose size is no multiple of eight may not fit (`ImportWriter.TwoPasses`, `SmallAlignment`).
- A lone file without imports is not read back if its first thunk is zero or leads to thunks (`ImportRead.LoneFile`).
- An edit that only moves imports to other ordinals is not found to need a new import section (`ImportEdit.NeededIff`, `OrdinalUnseen`).
- An import by ordinal zero that was renamed cannot be reset (`ImportEdit.ImportComesBack`).
- The planner exports a zero weight as one and an empty variant name as NULL (`PlannerDiff.ExportedAsEdited`). Exporting one changed global row of a cell shadows the cell's unchanged global rows, and a removed global row stays in force (`PlannerCells.GameAgrees`).

## What is assumed of the surroundings

Windows calls are parameters: the error of changing a page's protection, whether memory was found, the region a search would return (fresh, away from program and trampolines), the error of suspending a thread, the result of reading another process. `imported` stands for the test whether an address lies in a module's import table. The socket may fail any write after any number of its bytes; once it has failed a write it takes no more bytes on that connection. Callbacks of an import edit and all user edits of the planner are arbitrary.

## Model

| member | source | states |
|---|---|---|
| HookLayers.StepConsistent | lib/detours/detours.cpp:1783-1857 | every committed attach or detach that may be made keeps the layering invariant: each byte of program memory is what the topmost hook over it says, down to the original |
| HookLayers.DetachingEverythingRestores | lib/detours/detours.cpp:1783-1857 | any run of attaches and detaches, on separate targets or nested on one, that ends with no hook leaves every program byte as it was, pointers included when each was attached holding the function itself; otherwise they hold the function behind the stub |
| HookLayers.PointerRestoredIff | lib/detours/detours.cpp:1838-1842 | after one attach and its detach the target bytes are always back, and the pointer variable exactly when it held the function itself and not a stub that jumps to it |
| HookLayers.AttachedHookIsLive | lib/detours/detours.cpp:1838-1842 | while a hook is topmost its target is a jump to the detour and its pointer holds the trampoline |
| HookLayers.TransactionLegal | lib/detours/detours.cpp:1783-1857 | operations requested one by one and pairwise disjoint may be committed in one go |
| HookLayers.TransactionConsistent | lib/detours/detours.cpp:1783-1857 | committing such a transaction keeps the layering |
| HookLayers.UnchainedPair | lib/detours/detours.cpp:2263-2272 | two attaches to one target in one transaction: the second is a legal step exactly when the first patch changed nothing; detaching the second always uncovers the original code, so the first hook is lost |
| DetourTransaction.Detours.TransactionBegin | lib/detours/detours.cpp:1667-1689 | refused while a transaction is open; otherwise an empty one is, its pending error that of making regions writable |
| DetourTransaction.Detours.UpdateThread | lib/detours/detours.cpp:2034-2073 | a thread is recorded exactly when it could be suspended, in a transaction or not; an earlier error is returned, the own thread ignored |
| DetourTransaction.Detours.Attach | lib/detours/detours.cpp:2083-2449 | every error path and what it leaves pending; success queues one operation with a new trampoline that carries the moved run and the saved bytes; no program byte changes before commit |
| DetourTransaction.Detours.AttachTarget | lib/detours/detours.cpp:2174-2449 | the part after both addresses are known: on failure the trampoline goes back and nothing is queued |
| DetourTransaction.Detours.Detach | lib/detours/detours.cpp:2452-2589 | every error path; success queues the removal of exactly the topmost hook the pointer leads to, and nothing is freed |
| DetourTransaction.Detours.TransactionAbort | lib/detours/detours.cpp:1691-1733 | nothing of the program changes and every region that existed at the start has the free list it had then, in the same order |
| DetourTransaction.Detours.ApplyOperation | lib/detours/detours.cpp:1783-1857 | one operation in place is Patched or Restored of HookLayers |
| DetourTransaction.Detours.ApplyOperations | lib/detours/detours.cpp:1783-1857 | the loop over targets is the run of the pending operations, latest request first |
| DetourTransaction.Detours.MoveThreads | lib/detours/detours.cpp:1944-1983 | the loops resume every suspended thread where Resumes says: at its instruction |
| DetourTransaction.Detours.ReturnTrampolines | lib/detours/detours.cpp:1989-2007 | exactly the trampolines of removed hooks go back; those in use afterwards are those of attached hooks |
| DetourTransaction.Detours.Sweep | lib/detours/detours.cpp:1583-1606 | exactly the regions with a trampoline in use remain |
| DetourTransaction.Detours.TransactionCommitEx | lib/detours/detours.cpp:1760-2032 | with a pending error everything is undone as by abort; without one the hooks are those the operations make of them, every suspended thread resumes at its instruction (but for the entry of an 8- or 16-byte run on attach and the end of a run over seven bytes on detach), moved on only into code right behind a detached target whose attach is listed later, live trampolines are exactly the hooks' and the invariant of the whole process holds again |
| DetourTransaction.Detours.NothingAttached | lib/detours/detours.cpp:1760-2032 | in every reachable state with no hook attached every program byte is what it was when the first transaction began, but for pointer variables that were attached through a stub |
| HookLayers.BaseKept | lib/detours/detours.cpp:1838-1842 | a committed transaction changes what removal leads back to only in pointer variables attached through a stub |
| DetourTransaction.Detours.AttachedHook | lib/detours/detours.cpp:1838-1842 | in every reachable state an attached hook's trampoline carries the run moved out of the bytes it saved, instruction by instruction, and its alignment entries; a topmost hook jumps to its detour, its pointer leads to its trampoline, which ends in a jump to the rest of the target, and a detach through it passes the check that it is in place |
| DetourTransaction.LiveHook | lib/detours/detours.cpp:1838-1842 | the same from the parts of the invariant, for any hook |
| DetourCommit.CodesRun | lib/detours/detours.cpp:1783-2007 | after a committed run the trampolines of attached hooks are those before, plus the attached, less the detached |
| DetourCommit.AttachMovesThread | lib/detours/detours.cpp:1966-1977 | in any settled transaction a thread stopped at an instruction boundary of the patched bytes other than the entry resumes at the same boundary in the trampoline |
| DetourCommit.AttachMovesEntry | lib/detours/detours.cpp:1966-1977 | a thread stopped at the entry point resumes at the trampoline's entry exactly when the run's length is no multiple of eight; otherwise it lands behind the run |
| DetourCommit.DetachMovesThread | lib/detours/detours.cpp:1950-1964 | a thread stopped at an instruction boundary of the trampoline resumes at the low three bits of that boundary in the target whenever these lie in the bytes put back, whatever else the transaction does |
| DetourCommit.DetachBoundaries | lib/detours/detours.cpp:1950-1964 | that is every boundary but the end of a run of five to seven bytes that fills them, and it is the same boundary for all but the end of a run over seven bytes |
| DetourCommit.DetachMovesEnd | lib/detours/detours.cpp:1950-1977 | a thread at the end of such a filling run resumes behind the target; if an attach to the code there is listed later it is moved on as from that code's entry, if earlier it is not |
| DetourCommit.DetachMovesEntry | lib/detours/detours.cpp:1950-1964 | a thread stopped at the trampoline's entry resumes at the target's, whatever else the transaction does |
| DetourCommit.ThreadResumes | lib/detours/detours.cpp:1944-1983 | together: where any suspended thread ends up, whichever operation it is in, and that it stays put if it is in none |
| DetourCopy.CopyOne | lib/detours/detours.cpp:2263-2286 | one turn of the copy loop: the copied instruction, its alignment entry and both offsets |
| DetourCopy.CopyTarget | lib/detours/detours.cpp:2263-2286 | the loop consumes whole instructions and yields the run of X86Trampoline |
| DetourCopy.SkipPadding | lib/detours/detours.cpp:2288-2297 | padding is counted in whole filler instructions until a jump fits |
| DetourCopy.SkipMeans | lib/detours/detours.cpp:2288-2297 | every byte skipped behind a run is padding, piece by piece, and it goes on as long as the jump needs and there is padding |
| X86Trampoline.FillerMeans | lib/detours/detours.cpp:278-342 | a piece of padding is found exactly where a breakpoint or one of the eleven no-ops stands, with its length |
| X86Trampoline.EndsFunctionMeans | lib/detours/detours.cpp:249-276 | the end of a function is found exactly at an instruction that execution does not go past, and at a LOOPNE |
| X86Trampoline.RunStops | lib/detours/detours.cpp:2263-2286 | no instruction of a run but the last ends the function, and a run stops before five bytes only at such an end |
| DetourCopy.GenBrk | lib/detours/detours.cpp:149-155 | fills up to the limit with breakpoints |
| DetourCopy.FinishTrampoline | lib/detours/detours.cpp:2318-2411 | saved bytes, way back and breakpoints |
| DetourCopy.FillTrampoline | lib/detours/detours.cpp:2214-2411 | the trampoline carries the run, the saved bytes, the jump to the rest and the alignment entries; fewer than five bytes is refused |
| DetourCopy.CarriesFrom | lib/detours/detours.cpp:2214-2411 | what a trampoline carries does not depend on memory away from the target |
| DetourCopy.HookCaptured | lib/detours/detours.cpp:2263-2297 | what was moved lies in the bytes saved, only padding following, and means the same wherever its bytes are |
| DetourCopy.CarriedKept | lib/detours/detours.cpp:2263-2297 | and depends on the trampoline's own bytes alone |
| DetourSteps.TrampolineNotSkipped | lib/detours/detours.cpp:157-219 | looking through jump stubs never looks through a trampoline's own code |
| DetourState.SkipJmpFollows | lib/detours/detours.cpp:157-219 | the look-through follows the jumps the architecture would execute: over an import stub to the word in its slot; from a short jump there to its destination, and over one more import stub or one long jump, unless that leads to a patch of the system; anything else is left as it is |
| DetourState.SkipJmpReached | lib/detours/detours.cpp:157-219 | executing the code at a pointer arrives where the look-through does after at most three jumps |
| X86Trampoline.JmpLands | lib/detours/detours.cpp:133-139 | a generated jump reaches its destination modulo 2^32 |
| X86Trampoline.RunBound | lib/detours/detours.cpp:2263-2286 | at most five instructions and 25 bytes of moved code, so that the final jump fits into the 30 bytes |
| X86Trampoline.RunWorstCase | lib/detours/detours.cpp:2263-2286 | 25 bytes only with two enlarged conditional jumps before the last instruction |
| X86Trampoline.RunFaithful | lib/detours/detours.cpp:2263-2286 | every mark of a run is the end of the instruction before it, by the encoding rules, and every instruction keeps its meaning where the run moves it: same transfer and target, or the same bytes |
| X86Trampoline.AttachFixup | lib/detours/detours.cpp:1750-1758 | entering the trampoline is exact for every boundary if and only if the run's length is no multiple of eight |
| X86Trampoline.DetachFixup | lib/detours/detours.cpp:1740-1748 | leaving it is exact if and only if the run is at most seven bytes long |
| X86Trampoline.FixupInverse | lib/detours/detours.cpp:1740-1758 | up to seven bytes the two look-ups are inverse bijections between instruction boundaries |
| TrampolineAllocator.Conservation | lib/detours/detours.cpp:1263-1266 | free and live trampolines of every region add up to all but two |
| TrampolineAllocator.EmptyMeansUnused | lib/detours/detours.cpp:1559-1581 | the emptiness test holds exactly for regions without a live trampoline |
| TrampolineAllocator.BoundsNear | lib/detours/detours.cpp:223-247 | the bounds for a trampoline hold every place within 2 GB (less half a megabyte) of the code and of the destination of a long jump there, and no other |
| TrampolineAllocator.GrowHeap | lib/detours/detours.cpp:1526-1541 | a finished new region joins the heap |
| TrampolineRegions.Heap.Take | lib/detours/detours.cpp:1498-1507 | the head of the list is handed out, or nothing if it is out of bounds |
| TrampolineRegions.Heap.InitRegion | lib/detours/detours.cpp:1526-1541 | a new region has all but its first two trampolines free |
| TrampolineRegions.Heap.FindRegion | lib/detours/detours.cpp:1489-1515 | the default region if usable, else the first usable one, else none |
| TrampolineRegions.Heap.AllocTrampoline | lib/detours/detours.cpp:1478-1547 | the allocation in place: which trampoline, which list shrank, what was filled with breakpoints, everything else untouched |
| TrampolineRegions.Heap.FreeTrampoline | lib/detours/detours.cpp:1549-1557 | the trampoline is cleared and becomes the head of its region's list, all else untouched |
| TrampolineRegions.Heap.IsRegionEmpty | lib/detours/detours.cpp:1559-1581 | for a region on the list of a valid heap whose live trampolines lead out of it, true exactly when none of its trampolines is live |
| TrampolineRegions.Heap.Unlink | lib/detours/detours.cpp:1589-1593 | takes one region off the list in place |
| TrampolineRegions.Heap.FreeUnusedTrampolineRegions | lib/detours/detours.cpp:1583-1606 | exactly the regions without a live trampoline leave, the others keep their order and lists, and the default region is forgotten if any left |
| TrampolineHeap.HeapFrame | lib/detours/detours.cpp:1549-1557 | a change inside one region that keeps that region keeps the heap |
| X86Copier.CDetourDis.CopyInstruction | lib/detours/disasm.cpp:342-359 | the copier in place writes what the specification says: bytes, extra space, next source address |
| X86Copier.CDetourDis.CopyBytesPrefix | lib/detours/disasm.cpp:442-447 | prefixes nest to any depth, byte by byte |
| X86Copier.CDetourDis.CopyBytes | lib/detours/disasm.cpp:361-440 | instruction length from row, ModR/M and SIB; displacement re-based |
| X86Copier.CDetourDis.NumBytes | lib/detours/disasm.cpp:361-422 | the length announced by row, ModR/M and SIB |
| X86Copier.CDetourDis.AdjustTarget | lib/detours/disasm.cpp:496-574 | the displacement in place, truncated to its size, and the extra space it asks for |
| X86Copier.CDetourDis.CopyBytesJump | lib/detours/disasm.cpp:463-494 | short jumps become near ones in place |
| X86Copier.CopyLocal | lib/detours/disasm.cpp:361-447 | the copy depends only on the bytes it consumes |
| X86Sizes.LengthRead | lib/detours/disasm.cpp:361-422 | for any prefixes: what is copied ends where the encoding rules of the architecture end the instruction if and only if it is neither a 16-bit address whose form is longer or shorter than the 32-bit one nor a move of a control register with a memory mod |
| X86Sizes.CopiedIff | lib/detours/disasm.cpp:961-1600 | given room behind it an instruction is copied if and only if the architecture defines it outside VEX and EVEX |
| X86Sizes.AddressMisread | lib/detours/disasm.cpp:392-397 | a MOV with a 16-bit address that is taken for two bytes less than it has |
| X86Sizes.ControlMisread | lib/detours/disasm.cpp:1346 | a MOV from a control register that is taken for longer than it is |
| X86Opcodes.RealTables | lib/detours/disasm.cpp:961-1600 | the opcode tables meet everything the copier's proofs ask of them: every row transfers as its opcode does and has the sizes of its encoding |
| X86Relocation.TransferKept | lib/detours/disasm.cpp:361-574 | for any prefixes: the copy of a relative transfer is the same transfer with the same absolute target and falls through past its space if and only if it is relocatable: not a 0x66-prefixed short jump, no 8- or 16-bit displacement out of reach, and no XBEGIN unless it stays where it was |
| X86Relocation.AbortKept | lib/detours/disasm.cpp:1231 | XBEGIN is copied with its displacement, so it keeps its abort address if and only if it does not move |
| X86Relocation.AbortSpoiled | lib/detours/disasm.cpp:1231 | an XBEGIN moved by 16 whose abort address moves by 16 |
| X86Relocation.PlainKept | lib/detours/disasm.cpp:361-440 | anything that is no relative transfer (jumps, calls, loops, XBEGIN) is copied byte for byte |
| Arm64Immediate.Emitter.EmitMovImmediate | lib/detours/disasm.cpp:3984-4033 | the emitted words are the sequence of the specification |
| Arm64Immediate.MovLoads | lib/detours/disasm.cpp:3984-4033 | executing them leaves exactly the constant in the register and all other registers, flags and memory alone |
| Arm64Immediate.MovLength | lib/detours/disasm.cpp:3984-4033 | one to four instructions |
| Arm64Immediate.MovMinimal | lib/detours/disasm.cpp:3984-4033 | no sequence of one 64-bit MOVZ or MOVN and MOVKs that loads the constant is shorter |
| Arm64Assemble.Imms | lib/detours/disasm.cpp:3704-3725 | the decoders compute the displacement the architecture defines |
| Arm64Assemble.BccFields | lib/detours/disasm.cpp:3705-3713 | the assembled word decodes to its condition and displacement |
| Arm64Assemble.CbzFields | lib/detours/disasm.cpp:3780-3789 | likewise, for size, sense, register and displacement |
| Arm64Assemble.TbzFields | lib/detours/disasm.cpp:3889-3899 | likewise, with the bit number |
| Arm64Relocation.CDetourDis.CopyBcc | lib/detours/disasm.cpp:4089-4121 | the words emitted in place are those of the specification |
| Arm64Relocation.CDetourDis.CopyCbz | lib/detours/disasm.cpp:4158-4190 | likewise |
| Arm64Relocation.CDetourDis.CopyTbz | lib/detours/disasm.cpp:4192-4224 | likewise |
| Arm64Relocation.CDetourDis.CopyB_or_Bl | lib/detours/disasm.cpp:4123-4146 | likewise |
| Arm64Relocation.CDetourDis.CopyAdr | lib/detours/disasm.cpp:4035-4087 | likewise |
| Arm64Relocation.CDetourDis.CopyInstruction | lib/detours/disasm.cpp:3945-3982 | the words CopyMeans is about, and the extra length |
| Arm64Copy.CopyMeans | lib/detours/disasm.cpp:3945-3982 | for every word, read by the reference semantics and not by the dispatch: in every machine state the emitted words do at the new address what the word does at the old one (control, registers, flags, stack pointer; a far branch may use register 17, a link points behind the copy), if and only if no AL or NV condition is inverted, no far branch tests register 17 and no ADR becomes a 32-bit pair for a high address or register 31 |
| Arm64Copy.Verbatim | lib/detours/disasm.cpp:3945-3982 | a word whose effect does not depend on its address is emitted as it is |
| Arm64Copy.PositionFree | lib/detours/disasm.cpp:3945-3982 | and does the same anywhere, but for the link it leaves |
| Arm64Relocation.BccKept | lib/detours/disasm.cpp:4089-4121 | for every source, destination and machine state the copy branches to the original target exactly when the original would and otherwise falls through behind the emitted words, if and only if no AL or NV condition had to be inverted |
| Arm64Relocation.CbzKept | lib/detours/disasm.cpp:4158-4190 | the same for CBZ and CBNZ in all three forms, if and only if it is not a far copy that tests register 17 |
| Arm64Relocation.TbzKept | lib/detours/disasm.cpp:4192-4224 | the same for TBZ and TBNZ |
| Arm64Relocation.BranchKept | lib/detours/disasm.cpp:4123-4146 | B and BL reach the original target; after BL the link register points behind the copy |
| Arm64Relocation.AdrKept | lib/detours/disasm.cpp:4035-4087 | ADR and ADRP put the same address into the same register, in a given state, if and only if the copy is not ADRP and a 32-bit ADD for an address beyond 4 GB or, where register 31 is named, one that changes the stack pointer |
| Arm64Relocation.AdrKeptAlways | lib/detours/disasm.cpp:4035-4087 | in every state if and only if the pair form is used neither for an address beyond 4 GB nor for register 31 |
| Arm64Relocation.ZeroRegisterSpoils | lib/detours/disasm.cpp:4053-4058 | an ADR XZR whose copy adds one to the stack pointer |
| Arm64Relocation.AdrMeaning | lib/detours/disasm.cpp:4035-4047 | the address the original ADR or ADRP computes is the one AdrKept speaks of |
| Arm64Relocation.LdrNearIff | lib/detours/disasm.cpp:4226-4237 | the re-aimed literal load reads the same literal if and only if it lies within the 19-bit reach, half of what the range test admits |
| Ia64.SlotSet | lib/detours/disasm.cpp:1780-1840 | a slot reads back what was written |
| Ia64.SlotOthers | lib/detours/disasm.cpp:1811-1840 | writing a slot leaves the template and the other slots alone |
| Ia64.Bundle.SetInstruction | lib/detours/disasm.cpp:1811-1840 | in place, all three slots |
| Ia64.Bundle.RelocateInstruction | lib/detours/disasm.cpp:1952-2052 | one slot: the re-aimed instruction and its island, for the slots Recognized speaks of |
| Ia64.Bundle.RelocateBundle | lib/detours/disasm.cpp:2054-2070 | the number of islands used and the whole new bundle |
| Ia64.Bundle.Copy | lib/detours/disasm.cpp:2193-2211 | the copy and its islands, with the bytes they take |
| Ia64.ReaimedReaches | lib/detours/disasm.cpp:2006-2049 | re-aiming changes nothing but the displacement, and reaches the island if and only if it lies within 16 MB |
| Ia64.CopyKept | lib/detours/disasm.cpp:2054-2070 | template, absolute slots and all bits beside displacements are kept, those of a copied long branch included; each IP-relative slot reaches its own island if and only if that is within 16 MB |
| Ia64.IslandsFilled | lib/detours/disasm.cpp:1952-2070 | each IP-relative slot's island holds a long branch to the slot's original absolute target; no island is shared and unused ones are untouched |
| Ia64.BrlRoundTrip | lib/detours/disasm.cpp:2089-2117 | a long branch displacement is read back if and only if it is a multiple of 16 |
| Ia64.BrlLands | lib/detours/disasm.cpp:2119-2135 | islands and long branches go where they were asked to go |
| Ia64.CopiedBrl | lib/detours/disasm.cpp:2193-2211 | a copied long branch keeps its target |
| Ia64.GpRoundTrip | lib/detours/disasm.cpp:2146-2191 | the global pointer is read back if and only if its low four bits are zero |
| Ia64Copy.SlotRead | lib/detours/disasm.cpp:1616-1650 | the copier's slots, template and units of a bundle are those of the architecture |
| Ia64Copy.Recognized | lib/detours/disasm.cpp:1952-2049 | an instruction is found IP-relative if and only if its format (M20 to M23, I20, F14, B1 to B3) has a displacement, and its target is the one the format defines |
| Ia64Copy.CopyDecoded | lib/detours/disasm.cpp:2193-2211 | a copied bundle read by the instruction formats: slots without a displacement are the same instructions; those with one keep format and all other bits and aim at their own island if and only if it lies within 16 MB; a long branch keeps its target |
| Ia64Copy.IslandsDecoded | lib/detours/disasm.cpp:1952-2070 | each island used holds a long branch, by its format, to the target of the instruction it stands for |
| Ia64Copy.GpDecoded | lib/detours/disasm.cpp:2137-2191 | what is written or recognized as setting the global pointer is a long move into register 1 of the value read from it |
| ImageData.CImageData.Find | lib/detours/image.cpp:523-549 | the data of the first record of the GUID, or none |
| ImageData.CImageData.Delete | lib/detours/image.cpp:551-577 | in place, the record's entry and no other is gone; false exactly if there is none; no GUID gets a second record |
| ImageData.CImageData.SizeTo | lib/detours/image.cpp:432-459 | growth keeps the contents |
| ImageData.CImageData.Set | lib/detours/image.cpp:579-612 | in place, the padded data is the GUID's only record, at the end; without memory the old record is lost; one record per GUID stays one |
| ImageData.CImageData.Enumerate | lib/detours/image.cpp:494-521 | the record at the position and the position of the next |
| ImageData.CImageData.EnumerateAll | lib/detours/image.cpp:494-521 | from zero until NULL every record is visited once, in order |
| ImageData.CImageData.IsValid | lib/detours/image.cpp:470-492 | the scan accepts every buffer tiled by records |
| ImageData.CImageData.Purge | lib/detours/image.cpp:461-468 | no record is left |
| ImageData.SetRefines | lib/detours/image.cpp:579-612 | as a map: the GUID's entry becomes the data zero-padded to eight bytes, the others stay, keys stay unique |
| ImageData.DeleteRefines | lib/detours/image.cpp:551-577 | as a map: exactly the GUID's entry goes |
| ImageData.PaddedFacts | lib/detours/image.cpp:605-610 | fewer than eight zeros are added, up to a multiple of eight |
| ImageData.RecordAt | lib/detours/image.cpp:494-521 | the header fields at the start of every record of a tiled buffer |
| ImportEmit.CheckImportsNeeded | lib/detours/image.cpp:1344-1394 | tables, thunks and characters counted, and needed exactly if there is a byway or a renamed file or symbol |
| ImportEmit.FilesSize | lib/detours/image.cpp:1344-1394 | the second pass uses exactly the thunks and characters the first one counted |
| ImportEdit.ImportList.EditSymbols | lib/detours/image.cpp:1513-1551 | whatever the symbol callback answers, only current names and ordinals change |
| ImportEdit.ImportList.EditFile | lib/detours/image.cpp:1464-1552 | one file: deleted only if a byway, otherwise only current names change |
| ImportEdit.ImportList.EditImports | lib/detours/image.cpp:1431-1592 | the list is what EditAll makes of the callbacks' answers; whatever they are, failing half way included, the image's own files stay in order with all that was original, the count follows the list, and inserted files are untouched without a byway callback |
| ImportCallbacks.EditMakes | lib/detours/image.cpp:1431-1592 | for any answers: the edited list is, file by file, a byway for each name given before the file, then the file with the name, symbol names and ordinals it was answered (an inserted one kept, renamed or removed), and byways for the names given at the end; it succeeds unless the last answer refuses |
| ImportCallbacks.Scripted | lib/detours/image.cpp:1431-1592 | the same for any part of the list: what was answered so far decides the list so far, whatever is answered later |
| ImportCallbacks.RefusedBefore | lib/detours/image.cpp:1443-1451 | a refusal before a file keeps what was answered until then and leaves the rest as it was |
| ImportCallbacks.RefusedFile | lib/detours/image.cpp:1464-1500 | likewise a refusal for the file itself |
| ImportCallbacks.RefusedSymbol | lib/detours/image.cpp:1513-1551 | likewise a refusal for a symbol: the ones before it are as answered |
| ImportEdit.NeededIff | lib/detours/image.cpp:1344-1392 | after an edit of the list as read a new section is found needed if and only if something other than an ordinal has changed |
| ImportEdit.OrdinalUnseen | lib/detours/image.cpp:1344-1392 | an edit that moves an import to another ordinal, which is not found to need a section |
| ImportEdit.ImportComesBack | lib/detours/image.cpp:2150-2165 | an import comes back from any edit on reset if and only if its original name or a non-zero ordinal was recorded |
| ImportEdit.ResetRestores | lib/detours/image.cpp:2167-2180 | after any edits a reset gives back the import list as read, and no import section is needed |
| ImportWriter.TwoPasses | lib/detours/image.cpp:1776-1782 | the allocations fit a buffer if and only if the padding of the saved headers fits what it has beyond the size asked; always if the buffer's size or the headers' is a multiple of eight |
| ImportWriter.SmallAlignment | lib/detours/image.cpp:864-891 | 1001 bytes of saved headers and a file alignment of four do not fit |
| ImportWriter.CImageThunks.Allocate | lib/detours/image.cpp:647-659 | a thunk is stored and its address returned, or nothing once all are used |
| ImportWriter.CImageChars.Allocate | lib/detours/image.cpp:688-739 | a padded name, with or without a hint, is stored in place |
| ImportWriter.CImage.SizeOutputBuffer | lib/detours/image.cpp:864-891 | at least the size asked, what was there kept |
| ImportWriter.CImage.AllocateOutput | lib/detours/image.cpp:893-912 | the next zeroed bytes and their address, or failure |
| ImportWriter.EmitNames | lib/detours/image.cpp:1848-1862 | thunks, hints and names of one file as the specification emits them |
| ImportWriter.EmitAll | lib/detours/image.cpp:1823-1868 | descriptors, thunks and names of the whole list; no allocation fails and nothing else is overwritten |
| ImportWriter.CImage.WriteSection | lib/detours/image.cpp:1709-1868 | succeeds if and only if the buffer could be had and holds every area, which it does whenever the file alignment or the size of the saved headers is a multiple of eight; the section is then that of the specification |
| ImportRead.FindVa | lib/detours/image.cpp:926-943 | the first section whose raw range holds the address |
| ImportRead.ReadNames | lib/detours/image.cpp:1194-1262 | names with hints, and ordinals, up to the terminating thunk |
| ImportRead.ReadImportTable | lib/detours/image.cpp:1138-1273 | the list of files in order, byways recognised by their thunks |
| ImportRead.TableRoundTrip | lib/detours/image.cpp:1138-1273 | reading the written table recovers, in order, every file name and byway flag and every current name with hint, or ordinal, if and only if the list is no lone file without imports whose own first thunk is zero or leads to thunks |
| ImportRead.LoneFile | lib/detours/image.cpp:637-645 | a lone file without imports is read back if and only if its first thunk is not zero and leads to no section or to an empty table |
| ImportRead.BywayImports | lib/detours/image.cpp:1831-1841 | an inserted file imports ordinal 1 of its DLL and nothing else, by its lookup table as by its address table |
| ImportRead.DescKept | lib/detours/image.cpp:1823-1848 | a file keeps its forwarder chain and, if it is the image's own, the address of its bound thunks |
| ImportWriter.SectionRoundTrip | lib/detours/image.cpp:1104-1273 | reading the written section recovers saved headers, payload and original directories, and the import list under the same condition, if no other section's raw data covers its addresses |
| UpdateImports.ComputeSizes | lib/detours/uimports.cpp:143-180 | the checked arithmetic fails exactly when the block would reach 4 GB; otherwise every offset is the true sum |
| UpdateImports.ReplaceOptionalSize | lib/detours/creatwth.cpp:358-378 | the first pair of question marks is replaced, in place, and nothing else |
| UpdateImports.SizedMeans | lib/detours/creatwth.cpp:358-378 | the digits stand where the first pair of question marks stood, and nothing else changes |
| UpdateImports.EmitName | lib/detours/uimports.cpp:226-240 | one name copied and its size mark patched |
| UpdateImports.FillBlock | lib/detours/uimports.cpp:205-262 | the loop fills the block of the specification and the running offset ends at its end |
| UpdateImports.UpdateImports | lib/detours/uimports.cpp:143-282 | the block written, or failure exactly where the source fails |
| UpdateImports.Finished | lib/detours/uimports.cpp:205-262 | the finished block is new descriptors, old descriptors, thunks and names, tiling it exactly |
| UpdateImports.NamePlaced | lib/detours/uimports.cpp:226-260 | each new descriptor's name points to its DLL string with the first size mark replaced, zero-terminated |
| UpdateImports.DescPlaced | lib/detours/uimports.cpp:242-258 | each new descriptor is where it belongs with its own thunks |
| UpdateImports.ThunksPlaced | lib/detours/uimports.cpp:245-255 | both thunk tables of each DLL hold one ordinal import and their end |
| UpdateImports.TablesRead | lib/detours/uimports.cpp:242-258 | read through a new descriptor, both its tables hold ordinal 1 and their end, and they lie apart |
| IpcFraming.Encode | src/Shared/IpcFraming.hpp:17-34 | the frame is the little-endian length and the payload |
| IpcFraming.Decode | src/Shared/IpcFraming.hpp:46-64 | succeeds exactly on a complete frame and returns its payload |
| IpcFraming.RoundTrip | src/Shared/IpcFraming.hpp:17-64 | decoding gives the payload back, whatever follows, if and only if its length is below 2^32 |
| IpcFraming.CutDecodes | src/Shared/IpcFraming.hpp:43-45 | repeated decoding of a stream of frames, cut anywhere and ending in part of one, yields a prefix of the payloads, all of them if nothing complete is cut |
| IpcTransport.InvariantStep | src/IpcClient/IpcClient.cpp:221-457 | one writer, no lost wakeup, conservation and the bytes on the wire: kept by every step of either thread |
| IpcTransport.EveryInterleaving | src/IpcClient/IpcClient.cpp:228-267 | in every interleaving at most one write is outstanding, and while the loop runs without a failed write a waiting message has a writer at work or a posted kick |
| IpcTransport.InOrderOnce | src/IpcClient/IpcClient.cpp:350-457 | across any disconnects each message is once in exactly one of resolved, in flight, taken or queued, in order of sending |
| IpcTransport.PeerDecodesPrefix | src/IpcClient/IpcClient.cpp:428-457 | what the peer decodes of a connection's bytes, cut anywhere, is a prefix of the messages written on it |
| IpcTransport.ReturnsEmpty | src/IpcClient/IpcClient.cpp:267-276 | the loop only returns with messages queued after a failed write |
| IpcClients.IpcClient.Send | src/IpcClient/IpcClient.cpp:350-363 | queues, and posts a kick exactly if a context is published |
| IpcClients.IpcClient.KickWrite | src/IpcClient/IpcClient.cpp:417-422 | starts a chain exactly if none is running |
| IpcClients.IpcClient.TakeNext | src/IpcClient/IpcClient.cpp:428-437 | the locked head of do_write: takes the first message or ends the chain |
| IpcClients.IpcClient.StartWrite | src/IpcClient/IpcClient.cpp:439-444 | what is handed to the socket is the message's frame |
| IpcClients.IpcClient.OnWritten | src/IpcClient/IpcClient.cpp:445-455 | chains on, or on an error drops the message and ends the chain |
| IpcClients.IpcClient.Connect | src/IpcClient/IpcClient.cpp:221-267 | a turn of the reconnect loop up to the running loop: the invariants hold and the greetings are queued with their kicks |
| IpcClients.IpcClient.Disconnect | src/IpcClient/IpcClient.cpp:270-276 | the context is withdrawn, its kicks lost, the invariants hold |
| IpcClients.IpcClient.RunReturns | src/IpcClient/IpcClient.cpp:267 | without a failed write nothing is left in the queue |
| IpcClients.IpcClient.OnHeader | src/IpcClient/IpcClient.cpp:293-315 | the announced length is awaited next, or the reader stops |
| IpcClients.IpcClient.OnBody | src/IpcClient/IpcClient.cpp:321-345 | the message is queued and the next header awaited |
| IpcClients.IpcClient.DrainInbound | src/IpcClient/IpcClient.cpp:463-468 | hands over exactly what was delivered and not yet drained |
| IpcClients.IpcClient.Run | src/IpcClient/IpcClient.cpp:228-267 | any possible schedule of the handlers keeps all invariants |
| IpcInbound.InvariantStep | src/IpcClient/IpcClient.cpp:293-345 | the bytes taken are the frames of the delivered messages and at most one header; delivered is drained and queued |
| IpcInbound.DeliversPrefix | src/IpcClient/IpcClient.cpp:293-345 | of the messages the server sends, those delivered are the first ones, whole and in order, all of them when all bytes arrived; each is drained once |
| OverrideTable.QuoteScans | tools/map_planner.py:1098 | a quoted text is read back by SQL as that text and ends where it ends |
| OverrideTable.LiteralScans | tools/map_planner.py:1098-1099 | so is every literal, the empty text becoming NULL where NULL is allowed |
| OverrideTable.TupleScans | tools/map_planner.py:1110-1111 | a whole exported tuple is read back field by field |
| PlannerText.TupleMeansRow | tools/map_planner.py:1110-1122 | the tuple exported for a row is read as that row, cleaned |
| PlannerText.UpdateMeansRow | tools/map_planner.py:1125-1133 | the UPDATE exported for a row is read as setting that row's columns, cleaned, up to its WHERE |
| PlannerDiff.FinalAt | tools/map_planner.py:1106-1171 | the table after the export, id by id |
| PlannerDiff.OthersUntouched | tools/map_planner.py:1112-1148 | no row of another map and no global row is changed, deleted or added |
| PlannerDiff.RowExported | tools/map_planner.py:1106-1136 | every edited row is in the table afterwards, in its own place or, if new or changed and global, in a new one |
| PlannerDiff.HomesApart | tools/map_planner.py:1106-1136 | no two edited rows share a place |
| PlannerDiff.OwnFromEdited | tools/map_planner.py:1106-1150 | every row the map has on its objects afterwards is an edited one |
| PlannerDiff.ExportedAsEdited | tools/map_planner.py:1099-1132 | a row is exported exactly as edited if and only if it is unchanged or has a non-zero weight and no empty variant name |
| PlannerEdits.AnyHistoryUntouched | tools/map_planner.py:487-545 | both for any history of edits: other rows are untouched |
| PlannerEdits.AnyHistoryExact | tools/map_planner.py:487-545 | and the map's rows are exactly the edited ones |
| PlannerEdits.StepOk | tools/map_planner.py:534-545 | no edit moves a loaded row to another cell or map, or reuses a key |
| PlannerEdits.TypedLands | tools/map_planner.py:929-1018 | what is typed lands in the named field of its own row; the row's other fields and all other rows stay |
| PlannerEdits.RenameLands | tools/map_planner.py:989-994 | a group name reaches exactly the rows of its cell |
| PlannerEdits.RemoveTakesOne | tools/map_planner.py:545 | removing takes exactly the row with the key, and keeps the order |
| PlannerEdits.VariantJoins | tools/map_planner.py:534-544 | a new variant has its own key, the cell, group and id asked for, and weight one |
| PlannerEdits.DrawShows | tools/map_planner.py:925-955 | drawing a cell leaves the row its editor shows, a static value as the first variant of a pool, and changes nothing outside the cell |
| PlannerEdits.SwitchLocal | tools/map_planner.py:956-976 | switching a cell's mode changes nothing outside it |
| PlannerEdits.SwitchCell | tools/map_planner.py:956-976 | what the cell holds after a switch, and which value survives |
| PlannerEdits.RedrawAddsNothing | tools/map_planner.py:929-976 | the redraw after a switch adds no row |
| PlannerEdits.ThereAndBack | tools/map_planner.py:956-976 | static to variants and back keeps the value |
| PlannerCells.GameAgrees | src/GameServer/Engine/MapObjectConfig/MapObjectConfig.cpp:103-123 | the game applies to a cell exactly the rows the editor shows in it if and only if all of them become the map's own, or none does and no global row was removed |
| MapPlanner.Planner.AddRow | tools/map_planner.py:534-544 | the new row is this map's, under a new key |
| MapPlanner.Planner.RemoveRow | tools/map_planner.py:545 | the row and no other is gone |
| MapPlanner.Planner.SwitchMode | tools/map_planner.py:956-976 | the three modes in place, with the redraw; other cells untouched |
| MapPlanner.Planner.DrawBody | tools/map_planner.py:929-954 | drawing an editor adds the row it needs |
| MapPlanner.Planner.Retype | tools/map_planner.py:989-1022 | typing into a field |
| MapPlanner.Planner.Perform | tools/map_planner.py:929-1054 | every edit keeps the page's invariant |
| MapPlanner.Planner.GenerateSql | tools/map_planner.py:1101-1177 | the statements and counts of the export |

## Left out

- DetourTransaction.Detours.Attach: requires targets disjoint from those of the same transaction, a detour other than the target, a target outside trampoline regions and a run the copier relocates and reads right (no XBEGIN or 0x66-prefixed short jump in it, no LOOP, JCXZ or 16-bit jump out of reach, no encoding of `X86Length.Misread`); what happens to two attaches to one target is `HookLayers.UnchainedPair`.
- DetourTransaction.Detours.Detach: requires, once its own check of the trampoline passes, that the pointer leads to a topmost attached hook; the check reads three words and cannot tell more.
- DetourTransaction.Detours.TransactionCommitEx: page permissions, instruction cache flushes and contexts that cannot be read or written are not modelled.
- TrampolineRegions.Heap.AllocTrampoline: the search for free address space is a parameter (`newRegion`).
- X86Copier.CDetourDis.CopyInstruction: VEX and EVEX prefixes (C4, C5 and 62 followed by a byte of C0 and more) count as invalid opcodes; the reported targets of indirect jumps and `SetCodeModule` are not modelled.
- X86Sizes.LengthRead: lengths in 32-bit mode, of any number of prefixes (a processor stops at 15 bytes); reserved bits inside a defined opcode do not make it undefined.
- Arm64Relocation.LdrNearIff: covers the near form only; the far forms read the literal at copy time, when it may still change. PRFM shares the encoding and is not modelled.
- Arm64Relocation.CDetourDis.CopyInstruction: literal loads, which the source gives to a routine of their own, are excluded.
- Arm64Copy.CopyMeans: instructions that compute on registers only are outside the reference semantics; for them `Verbatim` says that they are not touched.
- Ia64Copy.Recognized: `mov r=ip` also depends on its place; neither the source nor the model relocates it.
- The Thumb-2 and x64 relocators and the detours.cpp variants for x64, ARM, ARM64 and IA-64.
- ImageData.CImageData.Set: sizes are unbounded; a payload near 4 GB would wrap the 32-bit sums.
- ImportWriter.CImage.WriteSection: the other parts of `Write` (headers, extra data, checksum, CLR header, debug directory), and 32-bit wrap-around of sizes, are not modelled.
- ImportRead.ReadImportTable: original names (the `m_pszOrig` side) are not read, nor the failures of looking them up; the round trip is about current names.
- ImageData.CImageData.IsValid: only that it accepts every buffer tiled by records; which others the scan refuses is not stated.
- ImportEdit.ImportList.EditImports: memory is never short and names fit 8191 characters, as a failed copy would leave a file without a name.
- UpdateImports.UpdateImports: reading the old directory, placing the block near the module and writing it back are parameters or left out; strings are shorter than 4 GB.
- IpcFraming.Decode: `4 + payload_len` does not wrap; on the 32-bit target it does for lengths of 2^32 - 4 and more.
- IpcTransport.PeerDecodesPrefix: assumes that a connection on which a write failed takes no more bytes.
- IpcClients.IpcClient.DrainInbound: what the drained messages do (the JSON actions) is not modelled; nor is the backoff between connections.
- IpcClients.IpcClient.Run: handlers are atomic between locks; unlocked reads of `io_ctx_` and of the flag by other threads do not occur in the source.
- PlannerText.TupleMeansRow: numbers are taken as JavaScript writes them; the text of keywords and comments is not modelled.
- PlannerDiff.OthersUntouched: the table is as it was when loaded, the map has a non-empty name, and the map_name column exists.
- MapPlanner.Planner.Retype: weights are real numbers; a field that is not a number counts as zero, as in the page. The search for an unused variant name and all drawing are left out.
- PlannerCells.GameAgrees: which rows of a cell are in force, not the random choice among variants.
- Forwarding proxies, the SDK, the control server, hook registration, hex and configuration helpers: nothing to prove beyond single bodies.
