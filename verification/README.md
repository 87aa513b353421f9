# ArduinoOS: a verified model

ArduinoOS is a small kernel with its own file system, instruction set, assembler and process manager. This project
models its hardest parts in Dafny and proves what they promise. Code that works by changing state is a class with
loops, proved against functions and predicates on values; the properties are lemmas about those.

| file | what it models |
|---|---|
| `Words.dfy`, `AddressMap.dfy` | bytes, 16-bit words, laying bytes over bytes; where things are in a process's address space |
| `MiniFsModel.dfy`, `FileList.dfy`, `HeaderSort.dfy`, `VolumeBytes.dfy` | MiniFs on values: which files a volume's bytes hold, first fit, the sorted header, what each write does to the represented files |
| `BrokenVolumes.dfy` | what a create or resize whose length does not fit leaves behind |
| `MiniFs.dfy`, `MiniFsRuns.dfy` | MiniFs on its byte buffer, operation by operation, and runs of operations as runs on lists of files and a map from names to contents |
| `Bytecode.dfy`, `Isa.dfy`, `MachineFacts.dfy` | the instruction encoding, the machine both interpreters run, and what its instructions come to in numbers, bits and bytes |
| `Emulator.dfy` | the stand-alone emulator, which counts skipped instructions down |
| `MemorySpace.dfy`, `ProcMemory.dfy` | a process's memory: program file, RAM file that grows, environment window, block reads and writes, memmove |
| `KernelCpu.dfy`, `SameMachine.dfy` | the kernel's interpreter, which skips at once and prefetches; the two interpreters side by side |
| `AssemblerModel.dfy`, `Relaxation.dfy`, `DefinesLast.dfy`, `Assembler.dfy` | the assembler: symbols, code per line, shrinking to a fixpoint, moving defines last, the class that does it on its array of instructions |
| `AssembledMeaning.dfy`, `LineRuns.dfy` | what assembled lines do when the machine runs them, one line and then whole runs |
| `SdCache.dfy` | the SD card reader's one-block write-back cache over a card that can fail |
| `FdTable.dfy` | the table of open files with packed reference counts |
| `ProcTable.dfy`, `ProcSteps.dfy`, `ProcRuns.dfy`, `ProcMan.dfy` | the process table on values, what each step does to both tables, what follows over ticks, and the process manager that takes the steps |
| `Ring.dfy` | the circular buffer kept in a file |
| `Calendar.dfy` | milliseconds to a Gregorian date |

The main results:

- **MiniFs.** Every run of format, create, delete, resize and write on the bytes is a run on a map from names to
  contents. Each operation succeeds exactly when the state before it allows (`Outcome`, over `CanCreate` and
  `CanResize`, which hold whenever any volume of that size could hold the result), a failed call changes nothing, other files are untouched, and resize keeps the common prefix wherever
  the file ends up. Free-region search is first fit, sound and complete. The bubble sort gives the sorted permutation.
- **Assembler.** Passes stop, lengths and addresses never grow, and whether the assembler gives a file, an error or a
  failed check is decided exactly. At the fixpoint the emitted bytes, run by the machine, do what the lines say:
  jumps and calls reach their label's final address, `ret` comes back after the call, `mov` loads a symbol's final
  value, which for a define is where its data lies, and a skip lands after the next line. A line-level semantics that knows no encodings is simulated over any
  number of lines, by the kernel's machine and by the emulator's (`LineRuns.ProgramMeaning`).
- **Interpreters.** The kernel's and the emulator's interpreter are each proved to run the machine of `Isa.dfy`. One
  kernel step that skips `k` instructions is `1 + k` emulator steps, over all runs. What the machine's instructions do is
  stated apart from it in numbers, bits and bytes, with exactly when one ends the process or is left open.
- **Process memory.** Which block writes leave every other byte alone, and which read back, is stated exactly. Memmove
  is right for any overlap and size where the source does not run past the environment data and RAM, if it has to grow,
  stays 16 bytes clear of the environment window (`CopyRanges`); a block moved closer to the window is right exactly
  when RAM need not grow for it (`MovesExactly`).
- **SD cache.** Reads, writes and flushes agree with a flat byte array whatever the card's failures damage.
- **Process and file tables.** Every run of new processes, kills and ticks is a run of steps on both tables
  (`ProcSteps.IsRun`), down to each instruction of each tick, and each step says what it makes of every process. After
  each step a slot's reference count is its number of holders, a slot is live exactly when it is in use, and waiters name
  live processes. So an exit gives its status to exactly those who wait for it, and a wait without timeout lasts until
  the process waited for is gone. Instruction counters stay below their limit.
- **Ring and calendar.** The ring is a bounded queue. Every date is valid, follows the date before, and inverts.

Where the code does not meet a property, the exact condition under which it does is proved, with an input that shows
the failure:

- `MiniFsVolume.MiniFs.FileCreate` and `FileResize`: a call that succeeds leaves bytes that represent a list of files
  exactly when `4 + |name| + length` is at most 32640, the 255 blocks an 8-bit count can hold. `CreateOneTooLong` is a
  file called `a` of 32636 bytes: an empty volume takes it, and is then no volume.
- `MemorySpace.KeepsOthersExactly`: growing RAM for a write just below the environment window (0xFC00) hides
  environment bytes behind RAM, because RAM is grown by up to 15 bytes more than asked for. `ShadowExample` is a
  one-byte write at 0xFBF5.
- `MemorySpace.ReadsBackExactly`: a write to the environment window reads back exactly when RAM does not reach it and it
  starts within the environment data. `EnvEndExample` is a byte written just past that data: it goes to RAM's first byte
  instead.
- `Relaxation.StackLineSettles`: the last pass's assertion holds exactly when the stack's 16-bit address is at least
  256. `Assembler.StackWraps` is a program that allocates 16384 words, for which it is 0 and the assembler stops.
- `SameMachine.PopsAgreeExactly`: wherever both interpreters can run `pop16`, they leave the same registers exactly when
  the target is not the register popped from. `PopExample` is a program of ten bytes that sets the stack register,
  pushes 1 and pops it into the stack register.
- `FdTable.Files.FileOpen`: a successful open leaves a valid table exactly when the mode is not 4, which it lets through
  and the packed bits cannot hold (`SpareExactly`). `ModeMaxLost` is such a slot.
- `Calendar.DateExactly`: dates are right exactly while the day number plus 719468 fits 32 bits. `DateWraps` is the
  first day for which it does not: it is taken for 1 March of year 0.

Where the code and its comments disagree the code is followed. `ktime.h` says years run to about 584 million; the
day number is cut to 32 bits, so they run to about 11.8 million. `kernelmount.c` line 31 says ring offsets end at
`bufferSize-2`; they end at `bufferSize-1`. The emulator's 64kb memory has 65535 bytes.

## Model

| member | source | states |
|---|---|---|
| `MiniFsRuns.Run` | src/kernel/minifs.c:83-445 | over any run of format, create, delete, resize and write, with any lengths, each operation succeeds exactly when its state allows, and then changes one entry of the map and the list of extents as it should, else nothing; a length that does not fit leaves no volume, which a format restores, and at which any other operation ends the run |
| `MiniFsRuns.Perform` | src/kernel/minifs.c:83-445 | one operation is one step: its result is the one the state determines, first fit places new and moved files, a failure changes nothing, only a length that does not fit ruins the volume, and a format needs none |
| `MiniFsRuns.RunUntouched` | src/kernel/minifs.c:83-445 | over a whole run without a format that ends with a volume, a file no operation names has the same entry at the end as at the start |
| `MiniFsRuns.ReadBack` | src/kernel/minifs.c:393-445 | after a write that counted bytes, which is all of them or those up to the file's end, a read there returns them, and every other byte and the length are unchanged |
| `MiniFsRuns.NothingWrittenExactly` | src/kernel/minifs.c:416-445 | a write counts nothing only on a read-only volume, for no file, at or past the file's end, or for no bytes, and then changes nothing |
| `MiniFsRuns.Kept` | src/kernel/minifs.c:287-387 | after a resize the file has the new length and starts with what it held, in no more blocks than it needs unless it grew within its own |
| `MiniFsRuns.CreatesWhenever` | src/kernel/minifs.c:221-265 | for a length that fits, a create succeeds exactly when there is any volume of that size that holds such a file beside the files there are |
| `MiniFsRuns.ResizesWhenever` | src/kernel/minifs.c:287-387 | for a length that fits, a resize succeeds exactly when the file fits so beside the others, at its place or apart from its old blocks |
| `MiniFsRuns.CreateOneTooLong` | src/kernel/minifs.c:221-265 | an empty volume accepts a file called a of 32636 bytes, and the bytes then represent no list of files; 32635 fits |
| `MiniFsVolume.MiniFs.Format` | src/kernel/minifs.c:83-110 | a volume is formatted exactly when its size in whole blocks is from one to 256, and is then empty; otherwise no byte changes |
| `MiniFsVolume.MiniFs.FileCreate` | src/kernel/minifs.c:221-265 | succeeds exactly when name, header slot and a region of the recorded size allow; the result is a volume exactly when the length fits 255 blocks, and then the map gains one entry; a failure changes nothing |
| `MiniFsVolume.MiniFs.PlaceNew` | src/kernel/minifs.c:248-262 | writing slot, length, size and name makes the volume represent the list with the new file in its sorted place, or nothing at all if the length does not fit |
| `MiniFsVolume.MiniFs.FileDelete` | src/kernel/minifs.c:267-285 | succeeds exactly when the file is there; the map loses that entry, no byte past the header changes |
| `MiniFsVolume.MiniFs.FileResize` | src/kernel/minifs.c:287-387 | succeeds exactly when the file's own blocks, those after it, or a free region suffice for the recorded size; the result is a volume exactly when the length fits, and then the content has the new length and keeps the common prefix, at the extents named; a failure changes nothing |
| `MiniFsVolume.MiniFs.ResizeAt` | src/kernel/minifs.c:299-387 | the same for a file found, whatever the new length: shrinking in place, growing in place, or moving |
| `MiniFsVolume.MiniFs.GrowAt` | src/kernel/minifs.c:314-387 | growing past the file's blocks uses the gap after it if that is enough for the recorded size, else moves the file |
| `MiniFsVolume.MiniFs.MoveAway` | src/kernel/minifs.c:358-387 | moves exactly when a free region of the new size exists, to the lowest, carrying the whole content along; a length that does not fit leaves no volume |
| `MiniFsVolume.MiniFs.CopyBytesTo` | src/kernel/minifs.c:373-377 | the copy loop lays the old content over the new place, leaving every other byte |
| `MiniFsVolume.MiniFs.FileRead` | src/kernel/minifs.c:393-414 | returns all the bytes asked for that the file has from the offset on, each the content's, and nothing from its end on or for a missing file |
| `MiniFsVolume.MiniFs.FileWrite` | src/kernel/minifs.c:416-445 | lays the bytes over the content up to its end and counts exactly those; every other file is untouched |
| `MiniFsVolume.MiniFs.FilenameToIndex` | src/kernel/minifs.c:538-570 | finds the one file of that name, and its place, or reports none |
| `MiniFsVolume.MiniFs.NameMatches` | src/kernel/minifs.c:546-558 | comparing bytes up to a terminator decides equality of names, never a prefix |
| `MiniFsVolume.MiniFs.GetEmptyIndex` | src/kernel/minifs.c:603-608 | the first empty header slot is the one after the last file |
| `MiniFsVolume.MiniFs.FindFreeRegionFactor` | src/kernel/minifs.c:610-650 | returns the lowest free region of the size, or 0 exactly when there is none |
| `FileList.GapTooSmall` | src/kernel/minifs.c:624-646 | a gap too small rules out every start before the next file, and after the last gap every start |
| `MiniFsVolume.MiniFs.ResortFileOffsets` | src/kernel/minifs.c:799-820 | the header becomes the sorted permutation of itself, and no other byte changes |
| `MiniFsVolume.MiniFs.BubblePass` | src/kernel/minifs.c:805-819 | one pass puts the greatest remaining entry in place; a pass without a swap means sorted |
| `HeaderSort.SwapStep` | src/kernel/minifs.c:811-817 | swapping neighbours out of order keeps the entries and the placed tail, and moves the greatest on |
| `HeaderSort.PassEnds` | src/kernel/minifs.c:805-819 | after a pass the tail in place is one longer, and an unswapped pass means the whole is sorted |
| `HeaderSort.SortedUnique` | src/kernel/minifs.c:799-820 | there is only one sorted header with given entries |
| `MiniFsVolume.MiniFs.IsConsistent` | src/kernel/minifs.c:447-490 | holds exactly when the magic byte is there and the header is ascending offsets followed by zeros |
| `MiniFsVolume.MiniFs.ValidIsConsistent` | src/kernel/minifs.c:447-490 | every volume the operations produce passes the consistency check |
| `MiniFsModel.RecordedCut` | src/kernel/minifs.c:241-242 | what is recorded of a length and of the least number of blocks for it are their lowest 16 and 8 bits |
| `BrokenVolumes.TooLongIsImpossible` | src/kernel/minifs.c:241-242 | a length that does not fit is recorded with too few blocks for it, or cut to less than the name takes |
| `BrokenVolumes.NoFileBehind` | src/kernel/minifs.c:743-776 | no file can be stored behind such a length, size factor and name |
| `BrokenVolumes.MoveReads` | src/kernel/minifs.c:363-377 | a file that is moved, even for a length that does not fit, is read whole: the region found has more blocks than it had and lies apart from it |
| `VolumeBytes.CreateRepresents` | src/kernel/minifs.c:248-262 | a file placed apart from all others, with its slot sorted in, extends the represented list |
| `VolumeBytes.DeleteRepresents` | src/kernel/minifs.c:267-285 | a slot cleared and sorted out removes exactly that file |
| `VolumeBytes.MoveRepresents` | src/kernel/minifs.c:363-387 | a file rewritten elsewhere and its slot resorted replaces the old one, whatever bytes it left behind |
| `VolumeBytes.ReplaceRepresents` | src/kernel/minifs.c:299-356 | a file rewritten within its gap replaces the old one, and no other file changes |
| `VolumeBytes.CopyPlan` | src/kernel/minifs.c:363-377 | source and destination of a move never overlap, so the copied content is the old content |
| `VolumeBytes.RepresentsUnique` | src/kernel/minifs.c:492-820 | a volume's bytes represent at most one list of files |
| `VolumeBytes.LaidOut` | src/kernel/minifs.c:492-820 | where each part of a volume lies: magic, size and header, and for each file its length with the upper byte first, its blocks, name, terminator and content |
| `FileList.InsertedContents` | src/kernel/minifs.c:221-265 | inserting in offset order adds exactly one entry to the map |
| `FileList.RemovedContents` | src/kernel/minifs.c:267-285 | removing a slot removes exactly its entry |
| `FileList.MovedContents` | src/kernel/minifs.c:363-387 | moving a file changes only its own entry |
| `FileList.MovedHeader` | src/kernel/minifs.c:379-383 | the header after a move holds the same offsets but for the one replaced |
| `Bytecode.ParseEncode` | src/kernel/bytecode.c:18-145 | parsing what any create function made gives the same instruction and its length |
| `Bytecode.EncodeParse` | src/kernel/bytecode.c:18-145 | any three bytes parse to an instruction whose encoding is those of them its length covers; exactly the bytes 0xC5 to 0xCF, which no create function makes, parse to a kind past the defined ones |
| `Bytecode.IncDecAmountKept` | src/kernel/bytecode.c:97-105 | an inc or dec made for an amount from 1 to 64 parses to one of that amount |
| `Bytecode.ParseIgnoresRest` | src/kernel/bytecode.c:18-65 | bytes past an instruction's length never matter |
| `Bytecode.SentinelFree` | src/kernel/bytecode.c:67-125 | only the illegal instruction starts with 0xC3 |
| `Bytecode.SetInstr` | src/kernel/bytecode.c:127-145 | the shortest form chosen for a set encodes to the bytes created |
| `Bytecode.SetShortest` | src/kernel/bytecode.c:127-145 | no instruction that sets a register to a value is shorter than the one chosen |
| `Bytecode.EncodedFields` | src/kernel/bytecode.c:67-125 | the bytes of an instruction, read as one number with the first byte uppermost, are its type's bits plus its fields at their places |
| `Words.BytesMean` | src/kernel/procman.c:960-966 | the bytes of a word, upper first, are its digits to base 256 |
| `Words.CutsMean` | src/kernel/minifs.c:241-242 | cutting to 16 or 8 bits loses whole multiples of 65536 or 256 |
| `Bytecode.DecodeEncodeAll` | src/kernel/procman.c:1135-1151 | fetching from a stream of encoded instructions returns exactly that list |
| `Bytecode.EncodeAllUnique` | src/kernel/bytecode.c:18-145 | two instruction lists with the same bytes are the same list |
| `Isa.StepSimulated` | src/kernel/procman.c:1284-1297 | one kernel step is one emulator step and one more for each instruction it skips |
| `Isa.RunSimulated` | src/tools/emulator/emulator.c:168-186 | every kernel run is an emulator run ending in the same machine with nothing left to skip |
| `Isa.HaltSimulated` | src/tools/emulator/emulator.c:168-186 | a kernel run that ends in a halt is an emulator run that ends in a halt |
| `Isa.EmuStepsSkip` | src/tools/emulator/emulator.c:182-187 | counting skipped instructions down passes over the same instructions as skipping at once |
| `Isa.ClzBounds` | src/kernel/util.c:21-28 | the leading-zero count brackets the word between two powers of two |
| `Isa.CompareBitsSay` | src/kernel/procman.c:1263-1275 | each of the eight comparison bits a skip can test says what it is named for |
| `Isa.Compare` | src/kernel/procman.c:1263-1275 | setting the comparison bits one after another, each of the eight that a skip can test says what it is named for |
| `Isa.AluMeans` | src/kernel/procman.c:1231-1250 | a sum is the operands' sum less at most one carry, a difference theirs plus at most one borrow, each undoes the other, a product loses only whole multiples of 65536, a quotient is the largest that fits |
| `Isa.AluBits` | src/kernel/procman.c:1251-1283 | each bit of an xor, or, and is the gate of the operands' bits, each bit of a shift is the bit that many places off, or zero |
| `Isa.BitwiseBit` | src/kernel/procman.c:1251-1262 | each bit of an xor, or, and is the gate of the operands' bits |
| `Isa.BitMeans` | src/kernel/procman.c:1284-1285 | the bit a skip tests is a binary digit of the register |
| `MachineFacts.IncDecMeans` | src/kernel/procman.c:1223-1230 | an inc adds and a dec takes away its amount from 1 to 64, losing a carry or borrow, and changes nothing else |
| `MachineFacts.NotMeans` | src/kernel/procman.c:1300-1303 | a not turns every bit around |
| `MachineFacts.WordMeans` | src/kernel/procman.c:1304-1320 | a word stored is in memory upper byte first and nothing else has changed; a word loaded is the one in memory |
| `MachineFacts.PushMeans` | src/kernel/procman.c:1321-1328 | a push puts the word where the stack register points and moves that on by two |
| `MachineFacts.PopsWhatWasPushed` | src/kernel/procman.c:1321-1337 | a pop after a push gives the word pushed, with the stack register where it was |
| `MachineFacts.HaltsExactly` | src/kernel/procman.c:1180-1420 | an instruction ends the process exactly if it stores to program memory, divides by zero, or is the illegal one |
| `MachineFacts.StuckExactly` | src/kernel/procman.c:1180-1420 | the machine leaves an instruction open exactly if it loads bytes not known, stores near the environment window where RAM might grow, pops into the stack's own register, or is a system call or undefined |
| `Emulator.Process.RunNextInstruction` | src/tools/emulator/emulator.c:168-436 | one call is one step of the counting machine, and stops exactly when it halts |
| `Emulator.Process.Fetch` | src/tools/emulator/emulator.c:171-180 | reads the instruction at IP, a byte at a time, and leaves IP after it |
| `Emulator.Process.ExecExtra` | src/tools/emulator/emulator.c:309-384 | store16, load16, push16, pop16, call, xchg8, not and clz do what the machine does; pop16 does what Popped says even into the register popped from |
| `Emulator.Process.Push` | src/tools/emulator/emulator.c:332-337 | storing a word a byte at a time, moving the register on between, is one word store |
| `Emulator.Process.Pop` | src/tools/emulator/emulator.c:340-345 | loading a word backwards, a byte at a time, with the target loaded before the register is moved on, is one word load unless the two are the same register |
| `Emulator.PopsAsMeant` | src/tools/emulator/emulator.c:340-345 | a pop into another register is the machine's pop |
| `Emulator.Process.Call` | src/tools/emulator/emulator.c:348-358 | pushes the return address and goes to the register's address |
| `Emulator.Process.ExecAlu` | src/tools/emulator/emulator.c:214-301 | arithmetic, comparison and shift instructions do what the machine does; division by zero stops |
| `Emulator.Process.ExecOther` | src/tools/emulator/emulator.c:190-213 | memory, set and short instructions do what the machine does; a store into program memory stops |
| `Emulator.Process.RunFor` | src/tools/emulator/emulator.c:156-159 | a number of calls is that many steps of the counting machine |
| `MemorySpace.KeepsOthersExactly` | src/kernel/procman.c:984-1069 | a block write leaves every other readable byte alone, whatever is written and however the file grows, exactly when it is harmless |
| `MemorySpace.ReadsBackExactly` | src/kernel/procman.c:903-1069 | what is written always reads back exactly when the write goes where reads look |
| `MemorySpace.EnvEndExample` | src/kernel/procman.c:1011-1018 | with any RAM below the window, a byte written just past the environment data need not read back, and can change another byte |
| `MemorySpace.ShadowExample` | src/kernel/procman.c:1005-1050 | with RAM below it and any environment data, a one-byte write at 0xFBF5 can change another readable byte |
| `MemorySpace.HarmlessKeeps` | src/kernel/procman.c:984-1069 | across the close, resize and reopen path every other byte reads the same |
| `MemorySpace.BlockBytes` | src/kernel/procman.c:903-951 | a block read returns, byte for byte, what is at its addresses |
| `MemorySpace.BlockIs` | src/kernel/procman.c:903-951 | exactly which blocks can be read, and where in the program file or the RAM file their bytes are |
| `MemorySpace.WrittenIs` | src/kernel/procman.c:984-1064 | exactly which writes are refused, where the others go in the RAM file, and what becomes of RAM's length |
| `MemorySpace.Written` | src/kernel/procman.c:1001-1061 | RAM length never shrinks, and grows to the write's end plus the extra room that could be had |
| `ProcMemory.Memory.ReadBlock` | src/kernel/procman.c:903-951 | succeeds exactly when the block lies in one readable region, and returns its bytes |
| `ProcMemory.Memory.WriteBlock` | src/kernel/procman.c:984-1069 | a successful write makes the memory the written one, for every block whose lengths fit 16 bits; one that is not refused fails only if RAM must grow for it and the file system has no room; with room, RAM ends 15 bytes past the block |
| `ProcMemory.Memory.GrowAndWrite` | src/kernel/procman.c:1017-1061 | trying 16, 8, 4, 2, then 1 extra bytes ends with RAM grown by at least the most of these the file system is sure to have room for, the block written, and fails only if it has no room for the least |
| `ProcMemory.Memory.Memmove` | src/kernel/procman.c:3512-3550 | over ranges within RAM or the environment data, a move that succeeds copies exactly the source bytes, whatever overlaps, and changes no other; one with a readable source fails only if RAM must grow and there is no room |
| `MemorySpace.MovesExactly` | src/kernel/procman.c:984-1069 | a block moved below the environment window arrives and leaves every other byte alone, however the file grows, exactly when RAM need not grow for it or has 15 bytes before the window |
| `ProcMemory.Memory.MoveUp` | src/kernel/procman.c:3516-3529 | copying upwards in chunks of 256, RAM growing on the way, keeps every source byte until it is read |
| `ProcMemory.Memory.MoveDown` | src/kernel/procman.c:3530-3546 | the same from the end, for a destination above the source |
| `MemorySpace.ChunkCopied` | src/kernel/procman.c:3519-3527 | a chunk whose source is untouched can be copied next to what is done, moving nothing else |
| `MemorySpace.ChunkJoins` | src/kernel/procman.c:3519-3527 | what was copied before a chunk stays copied after it |
| `MemorySpace.UpwardStep` | src/kernel/procman.c:3516-3529 | going up, RAM grows only once the source is past it, so no new byte is ever read |
| `MemorySpace.DownwardStep` | src/kernel/procman.c:3530-3546 | going down, source bytes still to come lie below any RAM gained |
| `KernelCpu.Process.RunInstruction` | src/kernel/procman.c:627-639 | one instruction is one step of the machine; only RAM that must grow without room can stop it otherwise |
| `KernelCpu.Process.Run` | src/kernel/procman.c:617-648 | a tick's instructions are a run of the machine, complete if the file system has room for RAM or the stores fit in the RAM there is |
| `KernelCpu.Process.GetInstruction` | src/kernel/procman.c:1135-1151 | fetching through the prefetch buffer returns the program's instruction and leaves IP after it |
| `KernelCpu.Process.Prefetch` | src/kernel/procman.c:3904-3916 | halving the block always ends with at least the byte asked for, and the buffer matches the program |
| `KernelCpu.Process.PrefetchReadByte` | src/kernel/procman.c:3897-3921 | the byte returned is the program's, whether or not it was buffered |
| `KernelCpu.Process.Skip` | src/kernel/procman.c:1284-1297 | the skip loop fetches exactly the instructions the machine passes over |
| `KernelCpu.Process.ExecExtra` | src/kernel/procman.c:1298-1376 | the extra instructions do what the machine does, and succeed if what they store fits in RAM; pop16 does what Popped says even into the register popped from |
| `KernelCpu.Process.Pop` | src/kernel/procman.c:1329-1337 | moves the register down by two and loads the word there, into any register |
| `KernelCpu.Process.ExecAlu` | src/kernel/procman.c:1220-1283 | arithmetic, comparison and shift instructions do what the machine does; division by zero kills |
| `KernelCpu.Process.ExecOther` | src/kernel/procman.c:1180-1211 | memory, set and short instructions do what the machine does; a store into program memory kills |
| `KernelCpu.HoldsStore` | src/kernel/procman.c:984-1069 | a store the machine allows keeps every byte the machine knows, even when RAM has to grow for it |
| `SameMachine.RunBoth` | src/kernel/procman.c:617-648 | started alike, kernel and emulator show the same registers and the same known memory after corresponding runs; the kernel gets that far whenever the file system has room |
| `SameMachine.HaltBoth` | src/kernel/procman.c:617-659 | started alike, a run that ends in a halt ends both interpreters |
| `SameMachine.PopsAgreeExactly` | src/tools/emulator/emulator.c:339-345 | wherever both interpreters can pop, they leave the same registers exactly when the target is not the register popped from |
| `SameMachine.PopBoth` | src/kernel/procman.c:1329-1337 | run on the two interpreters themselves, started alike, one pop leaves the same registers exactly when the two registers differ |
| `SameMachine.PopExample` | src/tools/emulator/emulator.c:340-345 | from the start of a ten byte program that sets the stack register, pushes 1 and pops into the stack register, the machine comes to the pop, which leaves 1 in the kernel and 0x2F00 in the emulator |
| `Assembler.Program.Assemble` | src/tools/assembler/assembler.c:515-563 | yields the image of a fixpoint, or an error, or a failed check, each exactly when the lines determine it: a line without a first length or the first line in error decides, and in a program without error only a stack address below 256 fails |
| `Assembler.Program.Relax` | src/tools/assembler/assembler.c:520-531 | the loop ends; no line is longer than at first; the result is a fixpoint with all code generated, or the first line in error is named |
| `Assembler.Program.GenerateMachineCode` | src/tools/assembler/assembler.c:1668-2090 | a pass shortens one line and ends there, or leaves every line settled and coded, or ends at the first line that cannot be assembled |
| `Assembler.Program.GenerateLine` | src/tools/assembler/assembler.c:1675-2060 | fills the line's buffer with its code and the end marker, touching no other line |
| `Assembler.Program.EmitLine` | src/tools/assembler/assembler.c:1683-2060 | from the addresses held in the array, the code is what the lines' lengths determine |
| `Assembler.Program.ActualLen` | src/tools/assembler/assembler.c:2063-2074 | the walk to the end marker returns the exact emitted length |
| `Assembler.Program.CalculateMachineCodeOffsets` | src/tools/assembler/assembler.c:1630-1666 | each line starts where those before it end, allocations follow one another in RAM, and the stack comes after |
| `Assembler.Program.CalculateInitialMachineCodeLengths` | src/tools/assembler/assembler.c:1479-1628 | every line gets its first length, or one has an unknown source |
| `Assembler.Program.GetIndex` | src/tools/assembler/assembler.c:2281-2379 | the first line that declares the symbol, or none |
| `Assembler.Program.GetSymbolValue` | src/tools/assembler/assembler.c:1716-1730 | a symbol is a define, else an allocation, else a label, else a constant |
| `AssemblerModel.ResolvesFirst` | src/tools/assembler/assembler.c:1719-1731 | a symbol is its first define, else its first allocation, else its first label, else its first constant, else unknown |
| `AssemblerModel.AllocationsApart` | src/tools/assembler/assembler.c:1643-1664 | while all allocations fit, each has its own bytes, as many as its elements take, one after another from 0x8000 on, and the stack starts behind the last |
| `Assembler.Program.SetStack` | src/tools/assembler/assembler.c:533-551 | the pass after filling in the stack's address changes nothing exactly when that address is at least 256 |
| `Assembler.StackWraps` | src/tools/assembler/assembler.c:1645-1665 | a program with the two magic lines, the stack's line and an allocation of 16384 words has no error, and stops the assembler at its assertion |
| `Assembler.Program.WriteMachineCode` | src/tools/assembler/assembler.c:2256-2279 | the file is the code of the lines, one after another |
| `Assembler.Program.ShiftDefines` | src/tools/assembler/assembler.c:1407-1430 | the swaps end, and leave all other lines and then all defines, each in their order; a change is reported exactly if there was one |
| `DefinesLast.SwapLowers` | src/tools/assembler/assembler.c:1419-1424 | a swap keeps both orders and leaves one inversion less |
| `DefinesLast.OrderedIsPartitioned` | src/tools/assembler/assembler.c:1407-1430 | when no define stands before code, the list is its code followed by its defines |
| `DefinesLast.PartitionKeeps` | src/tools/assembler/assembler.c:1407-1430 | the partition loses and gains no line, and separates defines from the rest |
| `AssemblerModel.OffsetOrder` | src/tools/assembler/assembler.c:1634-1641 | a later line starts no earlier than an earlier one ends |
| `Relaxation.InitialGood` | src/tools/assembler/assembler.c:1479-1628 | the first guesses are long enough for whatever the lines come to |
| `Relaxation.EmittedFits` | src/tools/assembler/assembler.c:2063-2086 | no line's code is ever longer than the line was taken to be |
| `Relaxation.JmpBytes` | src/tools/assembler/assembler.c:1809-1900 | a jump always has an instruction of its length or holds the place of a shorter one, so none of the assertions in its branches can fail |
| `Relaxation.JmpElsewhere` | src/tools/assembler/assembler.c:1819-1899 | a jump that fit in two bytes, or one, still does after any other line shrinks |
| `Relaxation.JmpShrinks` | src/tools/assembler/assembler.c:1819-1862 | a jump promised two bytes can keep the promise in the next pass |
| `Relaxation.ShrunkGood` | src/tools/assembler/assembler.c:2063-2086 | shortening a line keeps every line good and strictly lowers the total |
| `Relaxation.AddressesDescend` | src/tools/assembler/assembler.c:1630-1666 | as no length grows, no address does |
| `Relaxation.RefusedExactly` | src/tools/assembler/assembler.c:1683-2060 | which lines are refused does not depend on the pass |
| `Relaxation.InErrorExactly` | src/tools/assembler/assembler.c:1670-2060 | a line is in error exactly when it names no register where one must be, a symbol or label nobody declares, a stack or scratch register that may not be used, or skips a line without code |
| `Assembler.RefusedFirst` | src/tools/assembler/assembler.c:1668-2060 | the line at which a pass gives up is the first line in error, whichever pass it is |
| `Relaxation.SettledLine` | src/tools/assembler/assembler.c:2063-2086 | at the fixpoint each line has its length, and the count of machine instructions skips rely on |
| `Relaxation.StackLineSettles` | src/tools/assembler/assembler.c:533-551 | filling in the stack's address keeps the fixpoint exactly when the address needs three bytes |
| `Relaxation.ImageAt` | src/tools/assembler/assembler.c:2256-2279 | in the image every line's code lies at the line's offset |
| `AssembledMeaning.JmpMeaning` | src/tools/assembler/assembler.c:1801-1900 | running an assembled jump leaves IP at its label's final offset, at the start of that line, and changes nothing else |
| `AssembledMeaning.ReachesExactly` | src/tools/assembler/assembler.c:1822-1856 | a two byte jump is tried exactly where some two byte set, inc or dec takes the machine to the target |
| `AssembledMeaning.CallMeaning` | src/tools/assembler/assembler.c:1943-1971 | running an assembled call pushes the next line's address and starts the label's line |
| `AssembledMeaning.RetMeaning` | src/tools/assembler/assembler.c:1972-1983 | running an assembled ret goes to the address on the stack |
| `AssembledMeaning.ReturnsAfterCall` | src/tools/assembler/assembler.c:1943-1983 | a ret that finds the stack as the call left it goes on after the call, with the stack as before |
| `AssembledMeaning.MovMeaning` | src/tools/assembler/assembler.c:1690-1733 | running an assembled mov loads the number, the register or the symbol's final value |
| `AssembledMeaning.MovOfDefine` | src/tools/assembler/assembler.c:1719-1720 | after a mov of a define's symbol the define's data lies where the register points |
| `AssembledMeaning.MovOfLabel` | src/tools/assembler/assembler.c:1723-1726 | after a mov of a label the register holds the address at which the label's line starts |
| `AssembledMeaning.MovOfValue` | src/tools/assembler/assembler.c:1680-1728 | a mov of a number, character, constant or allocation loads that value or RAM address |
| `AssembledMeaning.StackIsSet` | src/tools/assembler/assembler.c:478-560 | after the line filled in for the stack the stack register points behind the last allocation |
| `AssembledMeaning.SkipMeaning` | src/tools/assembler/assembler.c:1775-1779 | a taken skip lands exactly after the next line, however long it came out; one not taken lands at it |
| `AssembledMeaning.SkipLine` | src/tools/assembler/assembler.c:1775-1779 | passing over a line's count of machine instructions passes over the line |
| `AssembledMeaning.Push8Meaning` | src/tools/assembler/assembler.c:1901-1921 | running an assembled push8 stores the register's low byte, for the instruction pointer the address it has by then, and moves the stack on by one |
| `AssembledMeaning.Pop8Meaning` | src/tools/assembler/assembler.c:1922-1942 | running an assembled pop8 loads the byte below the stack pointer and moves the stack back by one |
| `AssembledMeaning.AluMeaning` | src/tools/assembler/assembler.c:1745-1800 | running an assembled arithmetic, inc, dec or extra line has its effect on the operands and the stack it names |
| `AssembledMeaning.RegisterLineMeaning` | src/tools/assembler/assembler.c:1984-2055 | running an assembled store8, load8, xchg8 or clz is exactly its effect on the registers it names, in their order, halting where it must |
| `AssembledMeaning.OneInstrRuns` | src/tools/assembler/assembler.c:1735-2060 | a line of one machine instruction runs it with IP at the next line |
| `AssembledMeaning.TwoInstrsRun` | src/tools/assembler/assembler.c:1901-1971 | a line of two machine instructions runs both in turn |
| `LineRuns.ProgramMeaning` | src/tools/assembler/assembler.c:515-563 | an assembled program started at address 0 runs as its lines do: after any number of lines the kernel's machine and the emulator's are at the same line with the line-level registers and memory, or both have stopped |
| `LineRuns.LinesMeaning` | src/tools/assembler/assembler.c:515-563 | the same from any line, with the number of machine instructions run |
| `LineRuns.LineStepMeaning` | src/tools/assembler/assembler.c:1683-2060 | every kind of line takes as many machine instructions as it counts for and leads to the line it should, with the program still in memory |
| `LineRuns.RetAfterCall` | src/tools/assembler/assembler.c:1943-1983 | at the level of lines, a ret that finds the stack as a call left it goes on at the line after that call |
| `SdCache.SdCardReader.Read` | src/kernel/hwdevice.c:670-716 | what is returned is the view's, and the view is unchanged even when card reads and writes fail; a card that works reads all there is up to its end |
| `SdCache.SdCardReader.Write` | src/kernel/hwdevice.c:718-772 | exactly the bytes counted change in the view; a card that works takes all up to its end |
| `SdCache.SdCardReader.Flush` | src/kernel/hwdevice.c:650-668 | a true result makes the card equal the view; a false one leaves the view |
| `SdCache.SdCardReader.Select` | src/kernel/hwdevice.c:681-707 | writing back and loading a block never changes the view, whatever fails |
| `SdCache.SdCardReader.Mount` | src/kernel/hwdevice.c:407-408 | a card just mounted shows its own contents |
| `SdCache.SdCardReader.CopyToCache` | src/kernel/hwdevice.c:757-764 | laying bytes over the cached block lays them over the view at that address |
| `SdCache.ViewedOverlay` | src/kernel/hwdevice.c:757-764 | the view of a cache with bytes laid over is the view with the bytes laid over |
| `FdTable.SpareExactly` | src/kernel/kernelfs.c:1911-1925 | mode and count survive packing exactly when the mode is one of three and the count takes three bits |
| `FdTable.ModeMaxLost` | src/kernel/kernelfs.c:757-790 | a file opened with mode 4 counts no reference |
| `FdTable.Files.FileOpen` | src/kernel/kernelfs.c:751-801 | takes the last free slot with one reference, and leaves a valid table exactly when the mode is not the one past the last; a failure changes no slot but 0, and that only when the table is full; with files that all exist it fails only when the table is full |
| `FdTable.Files.FileDupe` | src/kernel/kernelfs.c:803-819 | adds a reference exactly when the slot is in use and fewer than seven are held |
| `FdTable.Files.FileDupeOrOpen` | src/kernel/kernelfs.c:821-835 | a further reference to the same path and mode, in this slot or a free one; none to a slot not in use |
| `FdTable.Files.FileClose` | src/kernel/kernelfs.c:837-857 | takes a reference away and frees the slot exactly with the last |
| `ProcMan.ProcessManager.FreedWithLastHolder` | src/kernel/kernelfs.c:837-857 | a slot is free exactly when no process holds it, and none has more than seven holders |
| `ProcTable.Taken` | src/kernel/kernelfs.c:751-835 | opening into an empty place keeps every count equal to its holders |
| `ProcTable.Given` | src/kernel/kernelfs.c:837-857 | closing what a place holds keeps every count equal to its holders |
| `ProcMan.ProcessManager.OpenFile` | src/kernel/procman.c:3665-3698 | uses the first free local fd of seven, never the last, so the search never runs out of the table; the file goes to a slot that was free, with that path and mode; with files that all exist it fails only for want of a local fd or a slot |
| `ProcMan.ProcessManager.CloseFile` | src/kernel/procman.c:3700-3754 | closes exactly the local fd named, and nothing if it is not open |
| `ProcMan.ProcessManager.Open` | src/kernel/procman.c:1673-1695 | the process is told the local fd the file was opened at, or 0, and nothing else about any process changes |
| `ProcMan.ProcessManager.New` | src/kernel/procman.c:245-374 | a new process takes the first unused slot, holds its program, proc and RAM files and no local fd; a failure gives everything back; with files that all exist, a slot and three free files suffice |
| `ProcMan.ProcessManager.Fork` | src/kernel/procman.c:3025-3174 | the child takes the first unused slot, runs the parent's program, has its own proc and RAM files, and has a file open exactly where the parent has, the same path in the same mode; parent and child are told; a failure rolls all back; with files that all exist, an unused slot and eleven free files suffice |
| `ProcMan.ProcessManager.ForkFiles` | src/kernel/procman.c:3061-3148 | taking the child's files one by one keeps every count right, wherever it stops; when all are taken each names the parent's path and mode |
| `ProcMan.ProcessManager.GiveBack` | src/kernel/procman.c:3149-3168 | the rollback closes all the child took and leaves its slot unused |
| `ProcMan.ProcessManager.Kill` | src/kernel/procman.c:382-488 | empties the slot and wakes exactly the processes waiting for it, with its status |
| `ProcMan.ProcessManager.CloseAll` | src/kernel/procman.c:430-459 | closes everything a process holds, each once |
| `ProcTable.KilledSteady` | src/kernel/procman.c:474-487 | after a kill no process waits for one that is gone |
| `ProcMan.ProcessManager.Exec` | src/kernel/procman.c:1429-1703 | one instruction is one step on both tables: an exit leaves the process on its way out with its status, a fork makes a child or tells there is none, open and close change one local fd, waitpid waits for a process there is or tells there is none, a kill empties its target and wakes its waiters, anything else changes nothing; the process goes on but for an exit or a fault |
| `ProcMan.ProcessManager.Resume` | src/kernel/procman.c:490-615 | a process that waits goes on only when what it waits for has come, told of a timeout; a wait without timeout is not timed out; a read or write that then fails kills it; nothing else changes |
| `ProcMan.ProcessManager.Tick` | src/kernel/procman.c:490-660 | a share is a run of steps: resumed, then instructions while it is active and up to 160, each counted, then ended with its exit status if one failed; all tables fit together after each step, and the assertion on the counter holds |
| `ProcMan.ProcessManager.RunShare` | src/kernel/procman.c:617-659 | the loop of instructions runs the script's, each after one that left the process active, and ends the process exactly when one failed or it has killed itself |
| `ProcRuns.ExitWakes` | src/kernel/procman.c:382-660 | in any share, an exit is followed by the end of its process: its slot is unused, every process that waited for it is active with the exit status in its register 0, and no other process has changed since the exit |
| `ProcRuns.FailedIsEnded` | src/kernel/procman.c:637-659 | an instruction that fails is followed by the end of its process with its status, and by nothing else in that share |
| `ProcRuns.AwaitedStep` | src/kernel/procman.c:474-535 | whatever step any process takes, one that waits without timeout stays as it is, unless it or the one waited for is gone after it |
| `ProcRuns.AwaitedWoken` | src/kernel/procman.c:474-535 | over any steps, one that waits without timeout is unchanged until the process it waits for is gone, and with that same step is active again with a status and otherwise unchanged |
| `ProcRuns.AwaitedRound` | src/kernel/procman.c:223-660 | over a whole round of ticks in which both stay, one that waits without timeout waits on |
| `ProcRuns.WaitEnters` | src/kernel/procman.c:1465-1480 | a waitpid for a live process makes its caller wait for that one, with a timeout exactly if asked, and changes nothing else about it |
| `ProcRuns.WaitRefused` | src/kernel/procman.c:1470-1471 | a waitpid for a process that does not exist is over at once, told 65532 |
| `ProcRuns.TimedOut` | src/kernel/procman.c:515-535 | a wait is timed out only if it was asked to be, and is then told 65535 |
| `ProcRuns.WaitReturns` | src/kernel/procman.c:382-1480 | from the call on, a wait without timeout lasts until the other process is gone and ends with that step, its caller's files as they were |
| `ProcRuns.ForkTells` | src/kernel/procman.c:3025-3174 | after a fork the parent is told a process that was unused and now is active, told 0, and has the parent's files open; or is told 16 and there is no new process |
| `ProcRuns.OpenTells` | src/kernel/procman.c:1673-1695 | after an open the process is told a local fd that was free and now is open at that path and mode, or 0, and no other local fd differs |
| `ProcRuns.CloseTells` | src/kernel/procman.c:1696-1703 | after a close that local fd is not open and no other differs |
| `ProcRuns.KillTells` | src/kernel/procman.c:1551-1558 | a kill call leaves process 0 alone; any other is gone, who waited for it is told 65534, and nobody else changes |
| `ProcRuns.RoundsReset` | src/kernel/procman.c:223-235 | the instruction counters are set to 0 after every 409th round, and the end of a round changes nothing else |
| `ProcRuns.PathsDiffer` | src/kernel/procman.c:259-261 | proc and RAM files have the process number in decimal in their paths, so no two processes share one |
| `ProcMan.ProcessManager.TickAll` | src/kernel/procman.c:223-235 | a round is a share of every process in turn, each starting where the one before ended; counters stay within 160 for each tick since the last reset, which comes in time |
| `ProcMan.ProcessManager.ResetInstructionCounters` | src/kernel/procman.c:3798-3801 | sets every counter to 0 and changes nothing else |
| `ProcMan.ProcessManager.Run` | src/kernel/procman.c:223-660 | every run of new processes, kills and rounds of ticks is a run of steps, each doing to both tables what it should; after each, counts equal holders, live is in use, waiters name live processes; counters are bounded |
| `ProcMan.ProcessManager.constructor` | src/kernel/procman.c:205-216 | the empty tables are right to begin with |
| `Ring.CircBuf.Run` | src/kernel/kernelmount.c:511-652 | over any run each read gives the oldest byte or -1, and each write appends what it counts; which of these, and how much, is determined unless the file fails |
| `Ring.InOrder` | src/kernel/kernelmount.c:511-652 | so over any run what was queued and written comes out in order and the rest is still queued |
| `Ring.CircBuf.Read` | src/kernel/kernelmount.c:529-548 | returns the oldest byte, or nothing when empty or failing, and then changes nothing |
| `Ring.CircBuf.Write` | src/kernel/kernelmount.c:616-643 | appends as many bytes as there is room for, never touching the head; a failure leaves the queue as it was |
| `Ring.CircBuf.CanRead` | src/kernel/kernelmount.c:578-588 | says whether the queue is empty |
| `Ring.CircBuf.CanWrite` | src/kernel/kernelmount.c:672-683 | says whether the queue is below its capacity of one less than the buffer |
| `Ring.CircBuf.WriteByte` | src/kernel/kernelmount.c:630-631 | a data write never touches the stored head and tail |
| `Ring.CircBuf.SetHeadOffset` | src/kernel/kernelmount.c:754-768 | stores the head in the first bytes of the file, leaving all others |
| `Ring.CircBuf.SetTailOffset` | src/kernel/kernelmount.c:770-784 | stores the tail in the bytes after the head's, leaving all others |
| `Ring.CircBuf.Mount` | src/kernel/kernelmount.c:103-122 | a mounted buffer is empty |
| `Ring.StoredValue` | src/kernel/kernelfs.c:1216-1228 | a number stored big-endian in one, two or four bytes reads back, if it fits |
| `Ring.OffsetFits` | src/kernel/kernelmount.c:700-708 | every offset into a buffer fits the bytes kept for it |
| `Ring.OffsetSizeLeast` | src/kernel/kernelmount.c:700-708 | offsets take no more bytes than the file's length does |
| `Ring.ValueMeans` | src/kernel/kernelmount.c:710-732 | an offset's bytes are its digits to base 256, the highest first |
| `Ring.Push` | src/kernel/kernelmount.c:623-636 | a byte at the tail is appended; the buffer is full exactly when the tail would meet the head |
| `Ring.Pop` | src/kernel/kernelmount.c:538-546 | moving the head on drops exactly the oldest byte |
| `Calendar.DateExactly` | src/kernel/ktime.c:117-138 | the date is valid, and is the day's own exactly when the shifted day number fits 32 bits |
| `Calendar.DatesInOrder` | src/kernel/ktime.c:117-138 | a day later is the calendar's next date |
| `Calendar.DateOfDayNumber` | src/kernel/ktime.c:123-138 | the date computed from a date's day number is that date |
| `Calendar.NextDayNumber` | src/kernel/ktime.c:123-138 | the next date has the next day number, across months, years and leap days |
| `Calendar.ShiftedExactly` | src/kernel/ktime.c:125-138 | every shifted day gives a valid date with that day number |
| `Calendar.YearFound` | src/kernel/ktime.c:127-128 | the division formula finds the year of every day of an era |
| `Calendar.EpochDate` | src/kernel/ktime.c:117-138 | time 0 is 1 January 1970, midnight |
| `Calendar.TimeOfDay` | src/kernel/ktime.c:118-121 | hour, minute, second and millisecond are in range and put together give the input |

## Left out

- MiniFsRuns.Perform: new content bytes, of a file created or grown, are arbitrary, as the code leaves whatever the blocks held.
- KernelCpu.Process.RunInstruction: says nothing of syscalls, undefined opcodes, instructions fetched from RAM or past the last readable program byte, and stores the machine does not allow, on which the two interpreters differ.
- Isa.RunSimulated: `pop16` into the register popped from, pushes, calls and exchanges below RAM, and stores near the environment window that could grow RAM into it, or leave the data shown there, are left undefined, as the interpreters differ.
- Bytecode.EncodeParse: the bytes 0xC5 to 0xCF are kept as short kinds 5 to 15. In the source kinds 5 and 6 are the tags of set8 and set16, with the other fields left as they were; running any of them is undefined.
- ProcMemory.Memory.WriteBlock: a block from below the environment window for which the 16-bit length of RAM or of its file would wrap is not modelled; no caller has one. RAM file reads and writes inside the file do not fail; growing and reopening can, but for a file of at most `assured` bytes.
- ProcMemory.Memory.Memmove: nothing is promised of what is copied from past the environment data, where reads go on into RAM, or into the gap below the environment window when RAM has to grow.
- Assembler.Program.Assemble: the program must fit 16-bit offsets at its first lengths; a skip on the last line, which reads the unset entry after it, is taken to fail the same check as one before a line without code. Defines hold their own data.
- LineRuns.LineStep: system calls, running into a define's data, a line other than jmp, call, ret and skip that changes the instruction pointer, and a ret to an address at which no line starts end the line-level run.
- FdTable.Files.FileOpen: whether the file exists, can be opened again, and whether memory suffices are arbitrary, unless the table is made `reliable`, when they always are; then so are the proc and RAM files of new processes.
- ProcMan.ProcessManager.Exec: a kill of a process number past the table, on which the kernel's own assertion stops it, is excluded. Proc-file reads and writes succeed, and a process's proc file is kept equal to what it has in memory, so the RAM file in it is the current one.
- ProcMan.ProcessManager.Fork: contents of the child's RAM are not modelled.
- ProcMan.ProcessManager.Run: exec, signals and pipes, and files held by mounts rather than processes. When a wait's time has come and when a device is ready are arbitrary.
- ProcMan.ProcessManager.New: the program path is the one opened, after any interpreter named in the file has been put in front.
- Ring.CircBuf.Write: reads of the backing file do not fail, and an offset is stored whole or not at all.
- Calendar.DateExactly: `unsigned` is 32 bits wide, as on the PC build.
- The SD card's command exchange, pins, UART, SPI, DHT22, keypad, terminal and logging.
- FAT, whose reads across clusters reuse the first offset and whose 16-bit sector total is read at the wrong place.
- Sharing data between defines, where a host define can be hosted itself and its data then is not emitted.
- Path normalisation and device lookup by path.
- The assembler's text parsing, includes and options; the remaining syscalls; the shell and other programs.
- The in-memory circular buffer and the partition table, which are simpler cases of what is here.
