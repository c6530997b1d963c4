# MINIX 3.3.0: a verified model of its core algorithms

This Dafny project models eight pieces of MINIX 3.3.0 and proves what they are for.

- **Interprocess communication** (`ipc_*.dfy`, `queue_links.dfy`, `fifo.dfy`): SEND, RECEIVE,
  SENDREC, NOTIFY and SENDA with blocking, caller queues, pending bits, asynchronous tables and
  the clearing of endpoints. The kernel is a class whose queues are links between process slots;
  each method is proved to compute a function on abstract states. Over all runs: nobody waits
  for itself, no rendezvous of a plain receive is missed, messages are conserved, nothing is
  delivered twice, queues are first in first out, and clearing an endpoint leaves no reference
  to it.
- **Run queues** (`rq_*.dfy`): RTS_SET, RTS_UNSET, enqueue, dequeue, sched_proc, pick_proc and
  the preempted requeue keep the queues proper in every reachable state, the best process runs,
  and the kernel's own consistency check succeeds exactly on proper queues.
- **LZW** (`lzw_*.dfy`): compress and uncompress with their bit packing, code widths, clears and
  hash table. For every text, width limit and mode decompressing undoes compressing.
- **decomp16** (`d16_*.dfy`): the five-pass decoder. Each pass keeps the meaning of the index
  stream it rewrites, the framing of the pipes is undone by the reader, and the passes together
  write what uncompress writes, except past the point where a 9-bit dictionary is full.
- **Regular expressions** (`re_*.dfy`): the compiler of cawf's regexp.c to a linear program and
  the backtracking matcher. A pattern compiles exactly when it parses and is small enough, the
  program is the code of its tree, and executing it answers whether some part of the string
  matches the denotation of the pattern, and reports a match that begins at the first such place.
- **diff** (`diff_*.dfy`): pruning, shellsort, equivalence classes, the k-candidate algorithm,
  the check against hash collisions and both hunk loops. With D_MINIMAL the matches are as many
  as a longest common subsequence has, and the hunks turn the first file into the second; where
  hash values tell lines apart no other matches give smaller ones.
- **Interrupt lines** (`irq_*.dfy`): shared lines with identity bits. A line in use is unmasked
  exactly when no hook is active.
- **cron** (`cron_tab.dfy`): the search for the next run finds the earliest minute that fits.

The code that updates things in place is modelled by classes and methods with loops, and each
method is tied to a specification function or states its result outright. The laws are lemmas
about those functions, over all inputs or all reachable states.

## Where the source does not keep what one would expect

- clear_ipc takes a process off a queue without clearing its link (system.c:505-516), so its next
  blocking send can fail the assertion at proc.c:886. `IpcLaws.StaleIffNotLast` and
  `IpcLaws.StaleLinkIff` say exactly when the link stays set, `IpcLaws.StaleLinkPanics` derives
  the failure and `IpcLaws.PanicReached` is a run that ends in it.
- deadlock() looks at the caller before its own edge exists (proc.c:656-671), so a process that
  receives from itself is not refused. `IpcLaws.ReceiveAcyclicIff` shows that this is the only
  way to close a cycle, `IpcLaws.SelfReached` that it can happen; runs exclude it.
- When the blocked send of a SENDREC is completed the tables of asynchronous messages are not
  looked at again (proc.c:985-1018), so the sender can wait for an answer that is there.
  `IpcPending.ReleasedMissesIff` gives the exact condition: the receiver has its pending bit set in
  the sender and an entry for it in its table. `IpcPending.NewlyMissedIff` shows that this is the
  only way to begin to miss one, `IpcPending.OnlyAnswers` that a plain RECEIVE never does.
  `IpcPending.MissedReached` and `IpcPending.EarlyAnswerMissed` are runs in which it happens, with
  the answer submitted after the call and before it.
- The range test of sched_proc lets the number of queues through as a priority (system.c:627).
  `RunQueue.SchedOkIff` shows that this value, and no other, breaks the run queues,
  `RunQueue.SchedLoses` when a process is lost by it and `RunQueue.LostReached` that it can be.
- sched_proc on the running process does not compare it with the waiting ones.
  `RunQueue.SchedCurrentIff` says when a better process is left waiting and
  `RunQueue.WaitingReached` shows a run in which one is.
- disable_irq sets the bit of a hook that is not registered (interrupt.c:170-177).
  `Irq.DisableOkIff` shows that the line stays proper exactly if the id of the hook is in use on
  it, by that hook or by another, `Irq.DisabledReached` that a hook can be put, removed and
  disabled.
- Ids are used again, so a hook that is no longer registered can stand for another
  (interrupt.c:49-54). `Irq.RemoveOtherIff`, `Irq.DisableOtherIff` and `Irq.EnableOtherIff` say
  exactly when rm_irq_handler, disable_irq and enable_irq then act on another hook than the one
  they are given, and `Irq.OutdatedReached` is a run in which they do.
- put_irq_handler does not see that a hook is on another line and clears its link
  (interrupt.c:56-60). `Irq.PutOkIff` gives the exact condition, `Irq.PutLoses` what is lost and
  `Irq.LostReached` a run in which it is.
- With a limit of 9 bits compress widens to 10 bits when its table is full and decomp16 does not
  follow (decomp16.c:223). `D16Step.InStepIff` and `D16Step.NextInStepIff` give the exact point at
  which it loses step, and `D16Nine.NineBitsFile` a compressed form of a text from which it then
  writes another text.
- When the first file of diff ends inside a matched line the second file is not skipped to its
  next line (diffreg.c:833-834). `DiffCheck.Check` shows that the matches are right nevertheless.

## Model

| member | source | states |
|---|---|---|
| LzwBits.PutCodeBit | usr/src/minix/commands/compress/compress.c:924-957 | After output has stored a code, every bit of the block before the end of the code is the bit it was, or the bit of the code that belongs there. |
| LzwBits.PutCodeField | usr/src/minix/commands/compress/compress.c:924-957 | The field at the offset is the code just stored, and every field before it is unchanged. |
| LzwBits.GetBitsIsField | usr/src/minix/commands/compress/compress.c:1165-1199 | getcode's loads, shifts and masks read exactly the w-bit field at the offset, for every width from 9 to 16. |
| LzwHash.HsizePrime | usr/src/minix/commands/compress/compress.c:801-814 | The table size 69001 is prime. |
| LzwHash.SlotsDistinct | usr/src/minix/commands/compress/compress.c:801-814 | A probe sequence visits no slot twice in its first 69001 steps, whatever its start. |
| LzwSpec.GetCode | usr/src/minix/commands/compress/compress.c:1126-1200 | getcode as a function: it passes over bits of the file, leaves dictionary and output alone, and keeps the reader's bounds. |
| LzwSpec.NextCode | usr/src/minix/commands/compress/compress.c:958-1000 | For every code the decoder takes the next code at the width and the place the encoder put it, though its dictionary lags by one entry. |
| LzwSpec.NoMoreCodes | usr/src/minix/commands/compress/compress.c:1009-1018 | The decoder sees the end of the file exactly after the last code, also after a padded block. |
| LzwSpec.ExpandsItem | usr/src/minix/commands/compress/compress.c:1067-1087 | A code of the encoder's dictionary expands to its string in the decoder's, also when it names the entry the decoder has not made yet. |
| LzwSpec.DecodesRest | usr/src/minix/commands/compress/compress.c:1034-1113 | From any point where the two sides agree the decoder produces the rest of the text. |
| LzwSpec.DecodesClear | usr/src/minix/commands/compress/compress.c:1059-1066 | A CLEAR code, with the junk entry 256 that the next code makes, does not disturb this. |
| LzwSpec.RoundTrip | usr/src/minix/commands/compress/compress.c:1034-1113 | Decompressing any compressed form of a text gives the text, for every limit of 9 to 16 bits, block mode on or off, and every schedule of clears. |
| LzwCompress.PutKeeps | usr/src/minix/commands/compress/compress.c:924-957 | Storing a code leaves all earlier codes of the block readable. |
| LzwSpec.DictFitsWidth | usr/src/minix/commands/compress/compress.c:970-1000 | The dictionary never outgrows the code width by more than the entry being made, so every code fits its width. |
| LzwCompress.Compressor.constructor | usr/src/minix/commands/compress/compress.c:740-784 | A compressor with empty buffers and a table of the right size. |
| LzwCompress.Compressor.Store | usr/src/minix/commands/compress/compress.c:924-958 | The stores of one code change the block to what PutCode says. |
| LzwCompress.Compressor.WriteBlock | usr/src/minix/commands/compress/compress.c:959-986 | A full block is appended to the output, whatever lies behind its last code. |
| LzwCompress.Compressor.PutInBlock | usr/src/minix/commands/compress/compress.c:924-986 | One code goes into the block, which is written if that fills it; every code written before stays readable. |
| LzwCompress.Compressor.Output | usr/src/minix/commands/compress/compress.c:887-1026 | One code goes into the block; the block is written when it is full or the width changes; the width grows or starts over as the table demands. |
| LzwCompress.Compressor.ClHash | usr/src/minix/commands/compress/compress.c:1502-1564 | Every slot of the hash table is empty afterwards. |
| LzwCompress.Compressor.Probe | usr/src/minix/commands/compress/compress.c:792-814 | The probe ends for every table with a free slot, at a slot with the key sought or at one the loop treats as free. |
| LzwCompress.Compressor.Emit | usr/src/minix/commands/compress/compress.c:815-817 | The code put out is the next item of the stream. |
| LzwCompress.Compressor.ClBlock | usr/src/minix/commands/compress/compress.c:1460-1500 | The table is cleared and CLEAR is put out, or nothing happens; both keep the stream well formed. |
| LzwCompress.Compressor.HitSound | usr/src/minix/commands/compress/compress.c:795-799 | A hit returns a code whose string is the current one with the next byte behind it. |
| LzwCompress.Compressor.File | usr/src/minix/commands/compress/compress.c:822-827 | Filing a new string in a free slot keeps every entry of the table sound. |
| LzwCompress.Compressor.Miss | usr/src/minix/commands/compress/compress.c:815-829 | On a miss the code of the string is put out and a new string begins; the items so far and the string spell the text read. |
| LzwCompress.Compressor.Feed | usr/src/minix/commands/compress/compress.c:788-830 | One turn of the main loop keeps items, string and text read in step. |
| LzwCompress.Compressor.EncodeAll | usr/src/minix/commands/compress/compress.c:775-836 | After the main loop and the last code the items spell the whole text. |
| LzwCompress.Compressor.Finish | usr/src/minix/commands/compress/compress.c:1009-1025 | The last block is written with just the bytes that hold codes. |
| LzwCompress.Compressor.Compress | usr/src/minix/commands/compress/compress.c:740-862 | The output is the header and a compressed form of the text, for every text. |
| LzwDecompress.Decompressor.constructor | usr/src/minix/commands/compress/compress.c:1034-1047 | A decoder with tables of the right size. |
| LzwDecompress.Decompressor.SetWidth | usr/src/minix/commands/compress/compress.c:1145-1157 | The width grows when the next entry needs it and starts over after a clear. |
| LzwDecompress.Decompressor.NewBlock | usr/src/minix/commands/compress/compress.c:1138-1164 | A new block is read at the new width, or the end of the file is reported. |
| LzwDecompress.Decompressor.Fill | usr/src/minix/commands/compress/compress.c:1158 | The next bytes of the file replace the front of the buffer and the rest of it stays. |
| LzwDecompress.Decompressor.GetCode | usr/src/minix/commands/compress/compress.c:1126-1200 | The method computes GetCode, and -1 at the end of the file. |
| LzwDecompress.Decompressor.Unwind | usr/src/minix/commands/compress/compress.c:1082-1087 | The stack, read from its top, is the string of the code followed by what was on it. |
| LzwDecompress.Decompressor.PutStack | usr/src/minix/commands/compress/compress.c:1092-1094 | The stack is written in forward order. |
| LzwDecompress.Decompressor.Turn | usr/src/minix/commands/compress/compress.c:1067-1104 | One turn writes the string of a code and enters the string before it with its first byte. |
| LzwDecompress.Decompressor.Enter | usr/src/minix/commands/compress/compress.c:1099-1104 | The new entry is made if there is room; the tables spell the dictionary. |
| LzwDecompress.Decompressor.InitTables | usr/src/minix/commands/compress/compress.c:1042-1047 | The tables spell the single bytes. |
| LzwDecompress.Decompressor.ClearTables | usr/src/minix/commands/compress/compress.c:1059-1063 | After CLEAR only the single bytes stay. |
| LzwDecompress.Decompressor.ReadCode | usr/src/minix/commands/compress/compress.c:1057-1066 | The code of the next string, with a CLEAR on the way taken into account. |
| LzwDecompress.Decompressor.DecodeLoop | usr/src/minix/commands/compress/compress.c:1057-1109 | The loop computes DecodeFrom. |
| LzwDecompress.Decompressor.Decompress | usr/src/minix/commands/compress/compress.c:1034-1113 | decompress computes Decode, whatever its buffers held before. |
| LzwFile.Uncompress | usr/src/minix/commands/compress/compress.c:688-704 | The header is checked, and for every compressed form of a text the result is the text. |
| LzwFile.CompressAndRestore | usr/src/minix/commands/compress/compress.c:740-1113 | uncompress undoes compress for every text, limit and mode. |
| D16Meaning.CodesMean | usr/src/minix/commands/decomp16/decomp16.c:29-44 | The codes of a compressed file, read as an index stream, mean its text, and build up the dictionary the decoder has. |
| D16Meaning.BytesMean | usr/src/minix/commands/decomp16/decomp16.c:418-421 | A stream of single bytes means those bytes. |
| D16Tables.RootOk | usr/src/minix/commands/decomp16/decomp16.c:242-244 | Following the indices of a pass ends below its part of the dictionary, at an index whose string begins with the same byte. |
| D16Tables.ChainSpells | usr/src/minix/commands/decomp16/decomp16.c:50-76 | A string is that of the end of its chain with the first bytes of the second indices along it. |
| D16Tables.TablesNext | usr/src/minix/commands/decomp16/decomp16.c:247-250 | After an index the tables of a pass still spell its part of the dictionary, the pending entry has got its second index, and a new one is pending if there is room. |
| D16Tables.RootPassed | usr/src/minix/commands/decomp16/decomp16.c:242-246 | Passing on the root builds up the same dictionary below the pass. |
| D16Tables.FirstPassed | usr/src/minix/commands/decomp16/decomp16.c:399-402 | A first byte passed on is the same byte. |
| D16Tables.ClearPassed | usr/src/minix/commands/decomp16/decomp16.c:235-241 | A clear, passed on or swallowed by the last pass, starts both dictionaries over. |
| D16Tables.Spawned | usr/src/minix/commands/decomp16/decomp16.c:252-263 | The root and the first bytes spawned mean the whole string. |
| D16Stage.CapsOk | usr/src/minix/commands/decomp16/decomp16.c:210-215 | The bounds of the five passes fit together and the first one covers the whole dictionary. |
| D16Stage.Stage.constructor | usr/src/minix/commands/decomp16/decomp16.c:210-220 | A pass with an empty part of the dictionary, whose output means nothing yet. |
| D16Stage.Stage.FindRoot | usr/src/minix/commands/decomp16/decomp16.c:242-244 | The loop follows the indices to the root. |
| D16Stage.Stage.Spawn | usr/src/minix/commands/decomp16/decomp16.c:252-263 | The loops pass on the second indices along the chain in their order, without storing them. |
| D16Stage.Stage.StoreChar | usr/src/minix/commands/decomp16/decomp16.c:247-248 | The index whose first byte ends the pending entry is saved. |
| D16Stage.Stage.Enter | usr/src/minix/commands/decomp16/decomp16.c:247-250 | The tables after an index. |
| D16Stage.Stage.PassFirst | usr/src/minix/commands/decomp16/decomp16.c:399-402 | A first-byte index keeps the pass's invariant: what it has passed on means what it has read. |
| D16Stage.Stage.Clear | usr/src/minix/commands/decomp16/decomp16.c:217-241 | CLEAR keeps it. |
| D16Stage.Stage.Process | usr/src/minix/commands/decomp16/decomp16.c:242-263 | A whole index keeps it. |
| D16Stage.Stage.SpawnAll | usr/src/minix/commands/decomp16/decomp16.c:252-263 | The spawned bytes complete what the root begins. |
| D16Stage.Stage.GetPipe | usr/src/minix/commands/decomp16/decomp16.c:378-406 | The next whole index is found, first bytes on the way are passed on, and the stream ends at the first index out of range, in good order if it is the end mark. |
| D16Stage.Stage.RunPipe | usr/src/minix/commands/decomp16/decomp16.c:217-265 | A pass that reads from a pipe takes all indices up to the end mark, and what it passes on means the same with a smaller dictionary. |
| D16Pipe.FramedSnoc | usr/src/minix/commands/decomp16/decomp16.c:422-437 | The words for one more block of symbols. |
| D16Pipe.NextFlag | usr/src/minix/commands/decomp16/decomp16.c:397-404 | Shifting the flags brings the flag of the next index to the sign bit. |
| D16Pipe.PipeWriter.constructor | usr/src/minix/commands/decomp16/decomp16.c:92-97 | A writer with nothing sent. |
| D16Pipe.PipeWriter.Store | usr/src/minix/commands/decomp16/decomp16.c:427-429 | An index and its flag join the block begun. |
| D16Pipe.PipeWriter.Close | usr/src/minix/commands/decomp16/decomp16.c:429-437 | A full block gets its flags, and a full buffer is written. |
| D16Pipe.PipeWriter.Put | usr/src/minix/commands/decomp16/decomp16.c:413-438 | One more symbol is sent; the words written and buffered are the frames of all symbols sent. |
| D16Pipe.PipeWriter.Die | usr/src/minix/commands/decomp16/decomp16.c:296-314 | The stream is closed with end marks, as many as fill the buffer, and everything sent has been written. |
| D16Pipe.PipeReader.constructor | usr/src/minix/commands/decomp16/decomp16.c:378-382 | A reader at the start of a framed stream. |
| D16Pipe.PipeReader.Refill | usr/src/minix/commands/decomp16/decomp16.c:385-390 | The next 512 words are read. |
| D16Pipe.PipeReader.NextBlock | usr/src/minix/commands/decomp16/decomp16.c:384-393 | The flags of the next block are taken. |
| D16Pipe.PipeReader.Shift | usr/src/minix/commands/decomp16/decomp16.c:394-404 | The next index of a block with its flag. |
| D16Pipe.PipeReader.Get | usr/src/minix/commands/decomp16/decomp16.c:378-406 | Reading gives back the symbols that were put in, in order, until none is left. |
| D16Bits.BitReader.constructor | usr/src/minix/commands/decomp16/decomp16.c:355-359 | A reader at bit 0. |
| D16Bits.BitReader.GetBits | usr/src/minix/commands/decomp16/decomp16.c:355-371 | getbits returns the next w bits of the file as a number, for every width from 9 to 16, and fails exactly when fewer are left. |
| D16Step.WidthTest | usr/src/minix/commands/decomp16/decomp16.c:222-230 | As long as the dictionary fits the width, the test for a wider code leads to the width and the place of compress. |
| D16Step.NextInStepIff | usr/src/minix/commands/decomp16/decomp16.c:222-230 | After codes all sought where compress put them, the next one is sought at the bit and the width compress gives it exactly when the limit is 10 bits or more, the code before is CLEAR, or the dictionary is not yet full. |
| D16Top.SkipGroup | usr/src/minix/commands/decomp16/decomp16.c:228 | The rest of a group of eight codes is skipped, or the file ends before. |
| D16Top.Widen | usr/src/minix/commands/decomp16/decomp16.c:222-230 | The method computes Sought: where the next code is looked for, on any bytes. |
| D16Top.ReadCode | usr/src/minix/commands/decomp16/decomp16.c:222-231 | The code is the field at that bit and of that width; the end of the file is seen exactly when fewer bits are left. |
| D16Top.Advance | usr/src/minix/commands/decomp16/decomp16.c:235-241 | After CLEAR the rest of its group is skipped and the width starts over. |
| D16Top.Turn | usr/src/minix/commands/decomp16/decomp16.c:221-264 | One turn of the loop takes the next code found, or sees the end of the file after the last one. |
| D16Top.RunTop | usr/src/minix/commands/decomp16/decomp16.c:217-265 | On any bytes whose codes stand for something, the first pass takes just the codes that its widths and places give, to the end of the file. |
| D16Step.InStepIff | usr/src/minix/commands/decomp16/decomp16.c:222-230 | The first pass looks for each of the first n codes, and for what follows, at the bit and the width of compress exactly when the limit is 10 bits or more or the dictionary has not been full by then. |
| D16Step.OutOfStep | usr/src/minix/commands/compress/compress.c:970-1000 | With a limit of 9 bits compress goes on with 10 bits once the dictionary is full and the first pass with 9. |
| D16Step.TakesCodes | usr/src/minix/commands/decomp16/decomp16.c:217-265 | As long as it is in step the first pass takes the codes compress wrote, one for one. |
| D16Step.TakesAll | usr/src/minix/commands/decomp16/decomp16.c:217-265 | In step to the end, it takes all of them and nothing else. |
| D16Main.WritePipe | usr/src/minix/commands/decomp16/decomp16.c:198-199 | The style, the indices and the end marks go into the pipe. |
| D16Main.ReadPipe | usr/src/minix/commands/decomp16/decomp16.c:191-195 | The next pass reads the style and the indices up to the first end mark. |
| D16Main.FirstPass | usr/src/minix/commands/decomp16/decomp16.c:185-265 | Pass 4 gives up exactly on a wrong header; otherwise its output means what the codes it finds stand for. |
| D16Main.Unpacks | usr/src/minix/commands/decomp16/decomp16.c:18-27 | What compress makes of a text stands for the text in decomp16 too, unless a 9-bit dictionary has been full. |
| D16Main.PipePass | usr/src/minix/commands/decomp16/decomp16.c:191-265 | Pass k turns a stream that means the text into one that means the text, with indices below its part of the dictionary. |
| D16Main.Decomp16 | usr/src/minix/commands/decomp16/decomp16.c:18-27 | The five passes together write what those codes stand for. |
| D16Main.BothDecompress | usr/src/minix/commands/decomp16/decomp16.c:18-27 | On what compress makes, up to the point where a 9-bit dictionary is full, decomp16 writes the text and the same bytes as uncompress. |
| D16Main.CompressAndDecomp16 | usr/src/minix/commands/decomp16/decomp16.c:18-27 | decomp16 undoes compress for every text and every limit from 10 to 16 bits. |
| LzwPack.CanPack | usr/src/minix/commands/compress/compress.c:887-1026 | Every valid stream of codes and clears has bytes that hold it. |
| D16Nine.ZeroCodes | usr/src/minix/commands/decomp16/decomp16.c:222-231 | In the 9-bit file of a long run of zeros the first pass reads 256 codes as written, one more by chance, and then 510 where compress wrote 511. |
| D16Nine.NineBitsLose | usr/src/minix/commands/decomp16/decomp16.c:222-231 | On that file decomp16 ends in good order and has not written the text. |
| D16Nine.NineBitsFile | usr/src/minix/commands/decomp16/decomp16.c:222-231 | Such a file exists, as a compressed form of the text; that it is the very one compress writes is not shown. |
| WaitGraph.AddEdge | usr/src/minix/kernel/proc.c:656-671 | Blocking a process on another keeps the graph of who waits for whom acyclic exactly when the other does not lead back to it. |
| WaitGraph.PathDistinct | usr/src/minix/kernel/proc.c:656-671 | In an acyclic graph no path visits a process twice, so following it ends. |
| IpcInv.DeadlockExact | usr/src/minix/kernel/proc.c:638-702 | For a process and another, deadlock() answers exactly whether blocking the first on the second would close a cycle. |
| IpcInv.NoSecondDeadlock | usr/src/minix/kernel/proc.c:1027-1031 | The receive half of a SENDREC that has blocked sending is never refused. |
| IpcInv.SendStepKeeps | usr/src/minix/kernel/proc.c:804-896 | mini_send keeps the rendezvous invariant and moves mail only forward. |
| IpcInv.ReceiveKeeps | usr/src/minix/kernel/proc.c:901-1044 | mini_receive does too. |
| IpcInv.NotifyKeeps | usr/src/minix/kernel/proc.c:1049-1094 | mini_notify does too. |
| IpcInv.ClearIpcKeeps | usr/src/minix/kernel/system.c:493-519 | clear_ipc keeps the rendezvous invariant. |
| IpcClear.SendaKeeps | usr/src/minix/kernel/proc.c:1145-1268 | try_deliver_senda does. |
| IpcClear.CancelAllKeeps | usr/src/minix/kernel/system.c:565-568 | The first loop of clear_ipc_refs does. |
| IpcClear.ClearRefsKeeps | usr/src/minix/kernel/system.c:570-586 | The second loop of clear_ipc_refs does. |
| IpcAsync.LogGrows | usr/src/minix/kernel/proc.c:1333-1436 | Delivering an entry that was not done, and marking it, records no delivery twice. |
| IpcAsync.TryOneAsync | usr/src/minix/kernel/proc.c:1333-1436 | try_one keeps the invariant of asynchronous sends: an undone entry of a live sender is registered and its bit is set at the destination. |
| IpcAsync.TryAsyncAsync | usr/src/minix/kernel/proc.c:1290-1327 | try_async keeps it. |
| IpcAsync.SendaAsync | usr/src/minix/kernel/proc.c:1145-1268 | Submitting a table keeps it. |
| IpcAsync.CancelAllAsync | usr/src/minix/kernel/proc.c:1441-1521 | Cancelling the sends to a process keeps it. |
| IpcAsync.CancelAllMarks | usr/src/minix/kernel/proc.c:1441-1521 | Every undone entry aimed at the process ends up done, with an error. |
| IpcAsync.ClearRefsAsync | usr/src/minix/kernel/system.c:557-586 | Removing the bits of a process without an endpoint keeps it. |
| Ipc.CancelClearsBit | usr/src/minix/kernel/proc.c:1459-1462 | Cancelling one sender clears its bit in the destination and no other, so the loop over pending bits ends. |
| IpcRun.EndpointCleared | usr/src/minix/kernel/system.c:524-552 | After clear_endpoint no process is blocked on the process, it is on no queue, its own queue is empty, and its bits are clear in every live process. |
| IpcRun.EntriesCancelled | usr/src/minix/kernel/system.c:524-552 | Undone entries of live senders aimed at it are marked done with an error. |
| IpcRun.StepInv | usr/src/minix/kernel/proc.c:414-532 | Every kernel step keeps the whole invariant. |
| IpcRun.RunInv | usr/src/minix/kernel/proc.c:534-633 | The invariant holds in every reachable state. |
| IpcOrder.StepInOrder | usr/src/minix/kernel/proc.c:885-889 | In every step processes that stay on a queue keep their order and newcomers come behind them. |
| IpcOrder.QueueOrderKept | usr/src/minix/kernel/proc.c:885-889 | Over a run whoever was first to queue stays ahead for as long as both wait. |
| IpcOrder.FirstServed | usr/src/minix/kernel/proc.c:980-1021 | A receive that takes a message from the queue takes that of the first acceptable sender. |
| IpcLaws.NoCycle | usr/src/minix/kernel/proc.c:638-702 | In every reachable state no process waits for itself, directly or through others. |
| IpcLaws.NoMissedRendezvous | usr/src/minix/kernel/proc.c:933-1034 | In every reachable state a process that only waits to receive has no acceptable sender on its queue and, unless it waits for a reply, no acceptable notification. |
| IpcLaws.SendingIffQueued | usr/src/minix/kernel/proc.c:882-889 | In every reachable state a process is sending exactly when it is on a queue, once, and on that of its target. |
| IpcLaws.OnePlace | usr/src/minix/kernel/proc.c:829-895 | A message accepted from a sender is with its sender, with its receiver, delivered or dropped, in just one of these places. |
| IpcLaws.NotLost | usr/src/minix/kernel/proc.c:1145-1268 | In every reachable state an undone entry of a live sender is registered, its destination is alive and the sender's bit is set there. |
| IpcLaws.AtMostOnce | usr/src/minix/kernel/proc.c:1290-1436 | No entry of a submission is delivered twice, and a delivered entry is marked done. |
| IpcLaws.StepConserves | usr/src/minix/kernel/proc.c:804-1044 | A step only moves mail forward and leaves every undelivered message in place until it is delivered. |
| IpcLaws.MailMovesForward | usr/src/minix/kernel/proc.c:804-1044 | Over a run messages go from sender to receiver to delivered and never back, and none is dropped unless an endpoint is cleared. |
| IpcLaws.NeverOverwritten | usr/src/minix/kernel/proc.c:576-579 | A message in p_delivermsg stays there until it is delivered. |
| IpcLaws.SendEntersOne | usr/src/minix/kernel/proc.c:804-896 | A send that is accepted enters one message, for its target; any other result enters none. |
| IpcLaws.SendRefusedIffCycle | usr/src/minix/kernel/proc.c:863-866 | A blocking send is refused exactly when it would close a cycle. |
| IpcLaws.ReceiveRefusedIffCycle | usr/src/minix/kernel/proc.c:1027-1031 | A receive from another process that finds nothing is refused exactly when waiting would close a cycle. |
| IpcLaws.ReceiveAcyclicIff | usr/src/minix/kernel/proc.c:656-671 | A receive keeps the graph acyclic exactly when it is not a process waiting for itself, which is the one cycle deadlock() does not look for. |
| IpcLaws.SelfReceive | usr/src/minix/kernel/proc.c:656-671 | A process that receives from itself, with nothing pending, is not refused and waits for itself. |
| IpcLaws.SelfReached | usr/src/minix/kernel/proc.c:656-671 | At the start of a run a process can do so. |
| IpcLaws.StaleIffNotLast | usr/src/minix/kernel/system.c:505-516 | clear_ipc leaves the link of the process it takes off a queue set exactly when another process was queued behind it. |
| IpcLaws.StaleLinkIff | usr/src/minix/kernel/system.c:493-586 | clear_endpoint leaves the link of a process that waits to send to the endpoint set exactly when one later in the process table is queued behind it. |
| IpcLaws.StaleLinkPanics | usr/src/minix/kernel/proc.c:886 | The next blocking send of a process with such a link fails the assertion that its link is clear. |
| IpcLaws.AheadReached | usr/src/minix/kernel/proc.c:804-896 | Such a state is reachable. |
| IpcLaws.PanicReached | usr/src/minix/kernel/proc.c:886 | A run in which an endpoint is cleared and the next send of a process it woke fails the assertion. |
| IpcPending.ScanOffers | usr/src/minix/kernel/proc.c:1360-1404 | A scan of a table finds an entry to deliver exactly when an undone one for the receiver comes before any malformed one. |
| IpcPending.OneTried | usr/src/minix/kernel/proc.c:1333-1436 | A try that fails leaves nothing in the table of the sender that the receiver could take. |
| IpcPending.AllTried | usr/src/minix/kernel/proc.c:1290-1327 | If every try fails no sender has anything for the receiver. |
| IpcPending.SubmitExplained | usr/src/minix/kernel/proc.c:1145-1268 | After a table has been submitted nobody who waits misses an entry of it, and no blocked send is completed by it. |
| IpcPending.ReceiveExplained | usr/src/minix/kernel/proc.c:901-1044 | A receive that has to wait misses no entry; one that takes a queued message makes nobody miss one but the sender it releases. |
| IpcPending.ReceiveMissesIff | usr/src/minix/kernel/proc.c:985-1018 | That sender misses an entry of the receiver exactly if the bit of the receiver is set in it and the table of the receiver has an entry for it. |
| IpcPending.StepExplained | usr/src/minix/kernel/proc.c:534-633 | A step leaves a process waiting for an entry it could take only if it did so before, or if the step completes the blocked send of its SENDREC; and then exactly when the receiver has its bit set there and an entry for it. |
| IpcPending.ReleasedMissesIff | usr/src/minix/kernel/proc.c:985-1018 | A process whose blocked send is completed misses an entry exactly if it sent to the owner of the entry, the pending bit of that one is set, and the entry is one it could take. |
| IpcPending.NewlyMissedIff | usr/src/minix/kernel/proc.c:534-633 | A step makes a process miss an entry it did not miss before exactly in this way. |
| IpcPending.RunExplained | usr/src/minix/kernel/proc.c:534-633 | In every run a waiting process misses an entry only since the blocked send of its SENDREC was completed by a receiver that then had an entry for it. |
| IpcPending.OnlyAnswers | usr/src/minix/kernel/proc.c:901-1044 | So in every reachable state it waits for the answer of that very sender: a plain RECEIVE never misses an asynchronous message. |
| IpcPending.MissedReached | usr/src/minix/kernel/proc.c:985-1018 | It does happen: a client waits for an answer that lies in the table of the server, with the pending bit set. |
| IpcPending.EarlyAnswerMissed | usr/src/minix/kernel/proc.c:985-1018 | A run in which the answer was submitted before the call and is missed all the same. |
| IpcKernel.Kernel.constructor | usr/src/minix/kernel/proc.c:119-159 | A process table in which nobody has sent anything. |
| IpcKernel.Kernel.FindDeadlock | usr/src/minix/kernel/proc.c:638-702 | The walk along blocked-on edges ends and its answer is that of Deadlock; the exemption of a group of two never decides it. |
| IpcKernel.NotExempt | usr/src/minix/kernel/proc.c:677-683 | Where mini_receive looks for a deadlock the source is not blocked sending to the caller, so the exemption of a group of two does not apply. |
| IpcKernel.Kernel.FindEnd | usr/src/minix/kernel/proc.c:887-888 | The loop finds the last pointer of a queue. |
| IpcKernel.Kernel.Append | usr/src/minix/kernel/proc.c:887-889 | The links after the caller has joined are those of the queue with the caller at its end. |
| IpcKernel.Kernel.MiniSend | usr/src/minix/kernel/proc.c:804-896 | The method computes MiniSend: delivery, refusal, deadlock, or queueing. |
| IpcKernel.Kernel.Reach | usr/src/minix/kernel/proc.c:829-857 | A process that waits gets the message, and its wait for a reply is over. |
| IpcKernel.Kernel.Block | usr/src/minix/kernel/proc.c:868-889 | The caller joins the queue of the destination, unless its link is still set and the assertion fails. |
| IpcKernel.Kernel.MiniNotify | usr/src/minix/kernel/proc.c:1049-1094 | The method computes MiniNotify: delivery or a pending bit. |
| IpcKernel.Kernel.FindEntry | usr/src/minix/kernel/proc.c:1360-1402 | The loop of try_one finds the first entry that is malformed or that the receiver may have, and whether all entries are done. |
| IpcKernel.Kernel.TryOne | usr/src/minix/kernel/proc.c:1333-1436 | The method computes TryOne. |
| IpcKernel.Kernel.TryTable | usr/src/minix/kernel/proc.c:1360-1436 | The rest of try_one. |
| IpcKernel.Kernel.DeliverAsync | usr/src/minix/kernel/proc.c:1404-1411 | An asynchronous message is put into p_delivermsg of the receiver. |
| IpcKernel.Kernel.StoreResult | usr/src/minix/kernel/proc.c:1413-1419 | The entry is marked done with its result. |
| IpcKernel.Kernel.StoreEntry | usr/src/minix/kernel/proc.c:1389-1425 | An entry is delivered unless it is malformed, and its sender is told if it wants to be. |
| IpcKernel.Kernel.TryAsync | usr/src/minix/kernel/proc.c:1290-1327 | The loop over all senders computes TryAsync. |
| IpcKernel.Kernel.MiniSenda | usr/src/minix/kernel/proc.c:1145-1284 | The method computes MiniSenda. |
| IpcKernel.Kernel.SendEntries | usr/src/minix/kernel/proc.c:1181-1256 | The loop of try_deliver_senda computes SendaFrom. |
| IpcKernel.Kernel.SendEntry | usr/src/minix/kernel/proc.c:1181-1256 | One turn of it computes SendaEntry. |
| IpcKernel.Kernel.CancelEntry | usr/src/minix/kernel/proc.c:1474-1511 | One turn of the loop of cancel_async. |
| IpcKernel.Kernel.CancelEntries | usr/src/minix/kernel/proc.c:1471-1511 | The loop of cancel_async. |
| IpcKernel.Kernel.CancelAsync | usr/src/minix/kernel/proc.c:1441-1521 | The method computes CancelAsync. |
| IpcKernel.Kernel.HasPending | usr/src/minix/kernel/proc.c:707-772 | The pending source is found: the one asked for, or the lowest. |
| IpcKernel.Kernel.FindSender | usr/src/minix/kernel/proc.c:980-1021 | The loop finds the pointer to the first acceptable sender, or the end of the queue. |
| IpcKernel.Kernel.Unlink | usr/src/minix/kernel/proc.c:1016-1017 | A process leaves a queue; its own link is cleared, or kept as clear_ipc does. |
| IpcKernel.Kernel.TakeArrived | usr/src/minix/kernel/proc.c:933-1022 | The part of mini_receive that looks for a message that has arrived computes Arrived. |
| IpcKernel.Kernel.TakeNote | usr/src/minix/kernel/proc.c:933-961 | The first stage of mini_receive: a pending notification is taken unless a reply is awaited. |
| IpcKernel.Kernel.TakeAsync | usr/src/minix/kernel/proc.c:967-978 | Its second stage. |
| IpcKernel.Kernel.TakeQueued | usr/src/minix/kernel/proc.c:980-1021 | Its third stage. |
| IpcKernel.Kernel.MiniReceive | usr/src/minix/kernel/proc.c:901-1044 | The method computes MiniReceive. |
| IpcKernel.Kernel.DoSyncIpc | usr/src/minix/kernel/proc.c:414-532 | The method computes DoSyncIpc, with every check in order. |
| IpcKernel.Kernel.FindProc | usr/src/minix/kernel/system.c:505-513 | The loop of clear_ipc finds the pointer to a process on a queue. |
| IpcKernel.Kernel.Detach | usr/src/minix/kernel/system.c:504-517 | The process leaves the queue if it is on it. |
| IpcKernel.Kernel.ClearIpc | usr/src/minix/kernel/system.c:493-519 | The method computes ClearIpc. |
| IpcKernel.Kernel.CancelAll | usr/src/minix/kernel/system.c:565-568 | The first loop of clear_ipc_refs ends and computes CancelAll. |
| IpcKernel.Kernel.ClearIpcRefs | usr/src/minix/kernel/system.c:557-586 | The method computes both loops. |
| IpcKernel.Kernel.ClearEndpoint | usr/src/minix/kernel/system.c:524-552 | The method computes ClearEndpoint. |
| IpcKernel.Kernel.HandOver | usr/src/minix/kernel/proc.c:298-303 | Handing the message over empties p_delivermsg and records the delivery. |
| IpcKernel.WaitsEmpty | usr/src/minix/kernel/proc.c:832 | A process that waits has no undelivered message, so the assertion before a delivery holds. |
| RunQueue.SetOk | usr/src/minix/kernel/proc.h:203-210 | RTS_SET keeps the run queues proper: a process is on a queue, once and on that of its priority, exactly when it is runnable. |
| RunQueue.EnqueueOk | usr/src/minix/kernel/proc.c:1526-1590 | enqueue, with its preemption of the current process, does. |
| RunQueue.UnsetOk | usr/src/minix/kernel/proc.h:213-221 | RTS_UNSET does. |
| RunQueue.RequeueOk | usr/src/minix/kernel/proc.c:256-265 | Putting a preempted process back does. |
| RunQueue.SchedOkIff | usr/src/minix/kernel/system.c:621-677 | sched_proc keeps the queues proper exactly when the priority is not the number of queues, which its range test lets through, or the quantum is refused. |
| RunQueue.SchedLoses | usr/src/minix/kernel/system.c:621-677 | With that priority the process is on no run queue afterwards, and it counts as runnable exactly when nothing but its quantum kept it from running. |
| RunQueue.PickBest | usr/src/minix/kernel/proc.c:1714-1742 | pick_proc finds a process exactly when one is runnable; it has the best priority of all and is the first of its queue. |
| RunQueue.SchedCurrentIff | usr/src/minix/kernel/system.c:649-674 | After sched_proc on the running process a better process waits exactly when one was on a better queue than its new priority. |
| RunQueue.TwoReached | usr/src/minix/kernel/proc.c:1526-1590 | A run in which two processes of one priority become runnable and the first is chosen. |
| RunQueue.WaitingReached | usr/src/minix/kernel/system.c:649-674 | From there sched_proc can leave the first running although the second has a better priority. |
| RunQueue.LostReached | usr/src/minix/kernel/system.c:627 | From there sched_proc can make the second runnable and on no queue. |
| RunQueue.StepOk | usr/src/minix/kernel/proc.h:203-221 | Every step keeps the queues proper. |
| RunQueue.RunOk | usr/src/minix/kernel/proc.h:203-221 | They are proper in every reachable state. |
| RunQueue.RunBest | usr/src/minix/kernel/proc.c:1526-1590 | In a run in which sched_proc is not applied to the current process, a preemptible process that goes on running has the best priority there is. |
| RunQueue.StepOrder | usr/src/minix/kernel/proc.c:1526-1642 | A process that is ahead of another on a queue stays ahead while both are on it, unless one is rescheduled. |
| RunQueue.StepJoins | usr/src/minix/kernel/proc.c:1526-1642 | A process joins at the end of a queue, except that one preempted with time left goes to the front. |
| RunQueue.RunOrder | usr/src/minix/kernel/proc.c:1526-1642 | First come, first served over a run. |
| RunQueueSched.Scheduler.constructor | usr/src/minix/kernel/proc.c:119-159 | No process is runnable and the queues are empty. |
| RunQueueSched.Scheduler.Dequeue | usr/src/minix/kernel/proc.c:1647-1709 | The method takes a process off its queue and keeps heads, tails and links right. |
| RunQueueSched.Scheduler.FindReady | usr/src/minix/kernel/proc.c:1676-1688 | The loop finds the pointer to a process and the one before it. |
| RunQueueSched.Scheduler.Remove | usr/src/minix/kernel/proc.c:1676-1688 | The process leaves its queue. |
| RunQueueSched.Scheduler.RtsSet | usr/src/minix/kernel/proc.h:203-210 | The method computes Set. |
| RunQueueSched.Scheduler.Append | usr/src/minix/kernel/proc.c:1548-1557 | The process joins its queue at the tail. |
| RunQueueSched.Scheduler.Enqueue | usr/src/minix/kernel/proc.c:1526-1590 | The method computes Enqueue. |
| RunQueueSched.Scheduler.EnqueueHead | usr/src/minix/kernel/proc.c:1601-1642 | The process joins its queue at the head. |
| RunQueueSched.Scheduler.RtsUnset | usr/src/minix/kernel/proc.h:213-221 | The method computes Unset. |
| RunQueueSched.Scheduler.SchedProc | usr/src/minix/kernel/system.c:621-677 | The method computes Sched. |
| RunQueueSched.Scheduler.PickProc | usr/src/minix/kernel/proc.c:1714-1742 | The method computes Pick. |
| RunQueueSched.Scheduler.RequeueCurrent | usr/src/minix/kernel/proc.c:256-265 | The method computes Requeue. |
| RunQueueSched.Scheduler.SwitchToUser | usr/src/minix/kernel/proc.c:256-275 | A preempted process is put back and the next one chosen. |
| RunQueueCheck.CheckQueue | usr/src/minix/kernel/debug.c:31-91 | The check of one queue succeeds only if the links are those of a proper queue, and does if they are. |
| RunQueueCheck.AllFound | usr/src/minix/kernel/debug.c:93-104 | The last loop finds out whether every runnable process was met. |
| RunQueueCheck.RunqueuesOk | usr/src/minix/kernel/debug.c:17-108 | The kernel's check succeeds exactly when the links, whatever they point to, represent queues on which every runnable process stands once, under its priority. |
| RunQueueCheck.ValidPasses | usr/src/minix/kernel/debug.c:17-108 | The scheduler's queues pass the check. |
| RunQueueCheck.PassesValid | usr/src/minix/kernel/debug.c:17-108 | Links that pass are, queue by queue, those of proper run queues with the right tails. |
| Irq.FreeId | usr/src/minix/kernel/interrupt.c:49-54 | The id chosen is not in use and every lower one is; without a free one it is the number of bits. |
| Irq.PutOkIff | usr/src/minix/kernel/interrupt.c:30-70 | Registering a hook keeps ids on a line different, active bits registered, and a line in use unmasked exactly when nobody is active, exactly if the hook is on no other line or is not registered after all. |
| Irq.PutLoses | usr/src/minix/kernel/interrupt.c:56-60 | Otherwise the hooks behind it on the other line are on no line any more. |
| Irq.RemoveOk | usr/src/minix/kernel/interrupt.c:76-107 | Removing does. |
| Irq.RemoveExact | usr/src/minix/kernel/interrupt.c:85-95 | Removing a registered hook takes that hook off its line and no other. |
| Irq.RemoveOtherIff | usr/src/minix/kernel/interrupt.c:85-95 | Removing takes another hook off a line exactly if the hook given is no longer registered and its id is in use again on its old line. |
| Irq.EnableOk | usr/src/minix/kernel/interrupt.c:162-167 | Enabling does. |
| Irq.DisableOkIff | usr/src/minix/kernel/interrupt.c:170-177 | Disabling does exactly for a hook whose id is in use on the line, by itself or by another hook. |
| Irq.DisableOtherIff | usr/src/minix/kernel/interrupt.c:170-177 | Disabling marks another hook active exactly if the hook given is outdated in that way and the bit was clear. |
| Irq.EnableOtherIff | usr/src/minix/kernel/interrupt.c:162-167 | Enabling marks another hook inactive exactly if the hook given is outdated and the bit was set. |
| Irq.InterruptOk | usr/src/minix/kernel/interrupt.c:117-159 | An interrupt does, whatever the handlers answer. |
| Irq.StepOk | usr/src/minix/kernel/interrupt.c:30-177 | Every step does. |
| Irq.RunOk | usr/src/minix/kernel/interrupt.c:30-177 | It holds in every reachable state. |
| Irq.LineAlways | usr/src/minix/kernel/interrupt.c:30-177 | In every reachable state the hooks of a line have different ids, active bits belong to registered hooks, and a line with a hook is unmasked exactly when no bit is active. |
| Irq.DisabledReached | usr/src/minix/kernel/interrupt.c:170-177 | A hook that is put, removed and then disabled has its bit active without being registered. |
| Irq.OutdatedReached | usr/src/minix/kernel/interrupt.c:76-177 | A run after which a removed hook, removed again, takes another one off the line, and disabled, masks the line of the other one. |
| Irq.LostReached | usr/src/minix/kernel/interrupt.c:56-60 | A hook put on a second line cuts off the hook behind it on the first. |
| IrqTable.Table.constructor | usr/src/minix/kernel/interrupt.c:24 | Empty lists and masked lines. |
| IrqTable.Table.FindEnd | usr/src/minix/kernel/interrupt.c:40-47 | The loop finds the end of the list and the ids in use, or that the hook is there. |
| IrqTable.Table.LowestFree | usr/src/minix/kernel/interrupt.c:49-51 | The loop finds the lowest free id. |
| IrqTable.Table.Join | usr/src/minix/kernel/interrupt.c:56-60 | The hook becomes the last of the list, and a list it was on before ends with it. |
| IrqTable.Table.PutIrqHandler | usr/src/minix/kernel/interrupt.c:30-70 | The method computes Put on linked lists, and the lists are proper ones afterwards exactly under that condition. |
| IrqTable.Table.Unhook | usr/src/minix/kernel/interrupt.c:87-88 | A hook leaves its list. |
| IrqTable.Table.Visit | usr/src/minix/kernel/interrupt.c:86-94 | One turn of the loop takes a hook with the id off, or goes on to the next one. |
| IrqTable.Table.RemoveId | usr/src/minix/kernel/interrupt.c:85-95 | The loop removes the hook with the id. |
| IrqTable.Table.RmIrqHandler | usr/src/minix/kernel/interrupt.c:76-107 | The method computes Remove. |
| IrqTable.Table.CallHandlers | usr/src/minix/kernel/interrupt.c:139-152 | The loop marks and unmarks the hooks as their handlers answer. |
| IrqTable.Table.IrqHandle | usr/src/minix/kernel/interrupt.c:117-159 | The method computes Interrupt. |
| IrqTable.Table.EnableIrq | usr/src/minix/kernel/interrupt.c:162-167 | The method computes Enable. |
| IrqTable.Table.DisableIrq | usr/src/minix/kernel/interrupt.c:170-177 | The method computes Disable, and the table is proper afterwards exactly for a hook whose id is in use on its line. |
| ReCode.EncPatched | usr/src/minix/commands/cawf/regexp.c:654-680 | Linking the code of an expression to what follows changes the offset of its exit and nothing else. |
| ReCode.ExitNode | usr/src/minix/commands/cawf/regexp.c:654-680 | The node at the exit of an expression is never a BACK node, so offsets there lead forward. |
| ReCode.EncChain | usr/src/minix/commands/cawf/regexp.c:1063-1079 | Following next pointers from the first node of an expression leads to its exit. |
| ReCode.AltsChain | usr/src/minix/commands/cawf/regexp.c:320-337 | The branches of a choice are chained, the last one to what follows. |
| ReMeaning.WidthSound | usr/src/minix/commands/cawf/regexp.c:362-389 | An expression that the compiler flags as having width matches no empty string. |
| ReMatch.StillStep | usr/src/minix/commands/cawf/regexp.c:845-889 | A node that leaves no choice keeps what is left to be matched. |
| ReMatch.PlusStep | usr/src/minix/commands/cawf/regexp.c:434-440 | A complex x+ keeps it. |
| ReMatch.ChoicesMean | usr/src/minix/commands/cawf/regexp.c:946-963 | What is left at a branch node can be matched exactly if one of the alternatives can. |
| ReMatch.ChoicesBelow | usr/src/minix/commands/cawf/regexp.c:946-963 | Each alternative is smaller in the measure that makes the matcher end, because looped operands have width. |
| ReEnds.SameStill | usr/src/minix/commands/cawf/regexp.c:845-889 | A node that leaves no choice keeps what is left to be matched for every end of the match. |
| ReEnds.SamePlus | usr/src/minix/commands/cawf/regexp.c:434-440 | So does a complex x+. |
| ReEnds.SameLeaf | usr/src/minix/commands/cawf/regexp.c:845-889 | A node that matches only up to one place leaves the rest with the same ends from there. |
| ReEnds.ChoicesTo | usr/src/minix/commands/cawf/regexp.c:946-963 | What is left at a branch node can be matched up to an end exactly if one of the alternatives can. |
| ReEmit.LinkLast | usr/src/minix/commands/cawf/regexp.c:328-336 | Linking the last branch of a choice changes its code to that of a linked branch. |
| ReEmit.LinkNth | usr/src/minix/commands/cawf/regexp.c:338-340 | So does linking the body of any branch. |
| ReEmit.StarBack | usr/src/minix/commands/cawf/regexp.c:427-431 | The body of a complex x* is linked back to its start. |
| ReCompile.Compiler.constructor | usr/src/minix/commands/cawf/regexp.c:214-238 | A compiler that only counts, or one with room for the code. |
| ReCompile.Compiler.RegC | usr/src/minix/commands/cawf/regexp.c:605-615 | One byte is counted or written. |
| ReCompile.Compiler.RegNode | usr/src/minix/commands/cawf/regexp.c:578-599 | A node with no next pointer is counted or written. |
| ReCompile.Compiler.RegInsert | usr/src/minix/commands/cawf/regexp.c:623-648 | A node is put in front of an operand, which moves up by its size. |
| ReCompile.Compiler.Shift | usr/src/minix/commands/cawf/regexp.c:633-641 | The bytes of the operand move up. |
| ReCompile.Compiler.RegNext | usr/src/minix/commands/cawf/regexp.c:1063-1079 | The node an offset leads to, forward or back. |
| ReCompile.Compiler.RegTail | usr/src/minix/commands/cawf/regexp.c:654-680 | The node at the end of a chain gets the offset of a later node. |
| ReCompile.Compiler.SetNext | usr/src/minix/commands/cawf/regexp.c:672-679 | The offset is stored. |
| ReCompile.Compiler.RegOpTail | usr/src/minix/commands/cawf/regexp.c:686-694 | The operand of a branch gets it, and nothing else does. |
| ReCompile.Compiler.MakeStar | usr/src/minix/commands/cawf/regexp.c:423-431 | The code of x* is that of its tree. |
| ReCompile.Compiler.MakePlus | usr/src/minix/commands/cawf/regexp.c:432-440 | The code of x+ is that of its tree. |
| ReCompile.Compiler.MakeOpt | usr/src/minix/commands/cawf/regexp.c:441-448 | The code of x? is that of its tree. |
| ReCompile.Compiler.RegRange | usr/src/minix/commands/cawf/regexp.c:500-508 | A range in brackets lists its characters. |
| ReCompile.Compiler.RegItem | usr/src/minix/commands/cawf/regexp.c:496-510 | One item of a bracket expression. |
| ReCompile.Compiler.RegItems | usr/src/minix/commands/cawf/regexp.c:495-511 | The items of a bracket expression. |
| ReCompile.Compiler.RegSet | usr/src/minix/commands/cawf/regexp.c:493-515 | A bracket expression. |
| ReCompile.Compiler.CountOrdinary | usr/src/minix/commands/cawf/regexp.c:1225-1241 | How many ordinary characters follow. |
| ReCompile.Compiler.RegText | usr/src/minix/commands/cawf/regexp.c:562-566 | The characters of a literal. |
| ReCompile.Compiler.RegLit | usr/src/minix/commands/cawf/regexp.c:543-567 | A literal, which gives its last character back to a repetition that follows. |
| ReCompile.Compiler.RegBracket | usr/src/minix/commands/cawf/regexp.c:484-518 | The node of a bracket expression, of either kind. |
| ReCompile.Compiler.RegAtom | usr/src/minix/commands/cawf/regexp.c:465-572 | The atom parsed is that of the grammar, its code that of its tree, and the flags are right; errors exactly where the grammar has them. |
| ReCompile.Compiler.RegGroup | usr/src/minix/commands/cawf/regexp.c:519-524 | A parenthesised expression. |
| ReCompile.Compiler.RegPiece | usr/src/minix/commands/cawf/regexp.c:401-454 | The piece parsed, its code and its flags, and the error of repeating what may be empty. |
| ReCompile.Compiler.Repeat | usr/src/minix/commands/cawf/regexp.c:419-453 | The code of an atom becomes that of its repetition. |
| ReCompile.Compiler.AddPiece | usr/src/minix/commands/cawf/regexp.c:376-384 | Another piece joins a branch. |
| ReCompile.Compiler.RegBranch | usr/src/minix/commands/cawf/regexp.c:362-389 | The branch parsed, its code and its flags. |
| ReCompile.Compiler.Reg | usr/src/minix/commands/cawf/regexp.c:290-354 | The expression parsed, its code and its flags; parentheses that do not match are an error. |
| ReCompile.Compiler.RegAlts | usr/src/minix/commands/cawf/regexp.c:311-333 | The branches of a choice. |
| ReCompile.Compiler.AddAlt | usr/src/minix/commands/cawf/regexp.c:322-332 | Another branch joins a choice. |
| ReCompile.Compiler.Close | usr/src/minix/commands/cawf/regexp.c:334-340 | The closing node, with the last branch and all tails linked to it. |
| ReCompile.Compiler.HookTails | usr/src/minix/commands/cawf/regexp.c:338-340 | The loop links the tails of all branches. |
| ReExec.StartSound | usr/src/minix/commands/cawf/regexp.c:246-252 | If a pattern has a start character every match begins with it. |
| ReExec.AnchorSound | usr/src/minix/commands/cawf/regexp.c:246-252 | If a pattern is marked as anchored a match begins at the beginning of the string. |
| ReExec.MustSound | usr/src/minix/commands/cawf/regexp.c:254-275 | Every string that matches contains the string that must appear. |
| ReExec.FindMust | usr/src/minix/commands/cawf/regexp.c:264-273 | The loop finds a literal of the only branch that no other is longer than, or that there is none. |
| ReExec.FirstNode | usr/src/minix/commands/cawf/regexp.c:246-253 | The first node of the only branch is a literal or the start of line exactly if its first piece is. |
| ReExec.DigOut | usr/src/minix/commands/cawf/regexp.c:240-275 | The hints hold of every match, and each is given exactly when the tree has it: the first character if the only branch begins with a literal, the anchor if it begins with ^, a longest literal if it has one and the flag SPSTART. |
| ReExec.Pass | usr/src/minix/commands/cawf/regexp.c:214-222 | One pass over the pattern parses it as the grammar says. |
| ReExec.RegComp | usr/src/minix/commands/cawf/regexp.c:202-278 | A pattern compiles exactly when it parses and its code is smaller than 32767 bytes, and the second pass writes as many bytes as the first has counted. |
| ReNodes.LayoutRead | usr/src/minix/commands/cawf/regexp.c:578-599 | The code of an expression can be read node by node from its start to its end. |
| ReNodes.NextsLand | usr/src/minix/commands/cawf/regexp.c:1063-1079 | In a compiled program every next pointer leads to the start of a node of the program, except that the last node and the operands of simple loops have none. |
| ReRun.Matcher.constructor | usr/src/minix/commands/cawf/regexp.c:786-800 | A matcher at the start of the input. |
| ReRun.StrLen | usr/src/minix/commands/cawf/regexp.c:866 | The length of an operand. |
| ReRun.Matcher.StrChr | usr/src/minix/commands/cawf/regexp.c:875 | Whether a character is in an operand. |
| ReRun.Matcher.SameText | usr/src/minix/commands/cawf/regexp.c:868-870 | Whether the input goes on as an operand does. |
| ReRun.Matcher.MatchLeaf | usr/src/minix/commands/cawf/regexp.c:845-889 | A node that matches by itself moves the input past its match. |
| ReRun.Matcher.MatchLit | usr/src/minix/commands/cawf/regexp.c:858-873 | So does a literal, and only if all of it is there. |
| ReRun.Matcher.OneMore | usr/src/minix/commands/cawf/regexp.c:1026-1050 | Whether a simple node matches the next character. |
| ReRun.Matcher.RegRepeat | usr/src/minix/commands/cawf/regexp.c:1017-1057 | As many matches in a row as there are. |
| ReRun.Matcher.LookAhead | usr/src/minix/commands/cawf/regexp.c:968-976 | The character that must follow a loop, if it is known. |
| ReRun.Matcher.MatchLoop | usr/src/minix/commands/cawf/regexp.c:964-992 | A simple loop matches exactly if some number of turns lets the rest match, and stops at the end of such a match; skipping counts by the next character loses none. |
| ReRun.Matcher.MatchBranches | usr/src/minix/commands/cawf/regexp.c:946-963 | One after the other the alternatives are tried, until one matches, and the input is then at the end of that match. |
| ReRun.Matcher.RegMatch | usr/src/minix/commands/cawf/regexp.c:823-1011 | It ends for every compiled program, and answers yes exactly when what is left of the expression matches here; the input is then at the end of such a match. |
| ReExec.RegTry | usr/src/minix/commands/cawf/regexp.c:786-810 | regtry says yes exactly when the expression matches at the place, and the end it reports is that of a match. |
| ReExec.NextChar | usr/src/minix/commands/cawf/regexp.c:765-766 | The next place of a character, or none. |
| ReExec.HasMust | usr/src/minix/commands/cawf/regexp.c:739-752 | The search for the string that must appear fails only if it does not appear. |
| ReExec.TryStarts | usr/src/minix/commands/cawf/regexp.c:763-770 | Trying the places of the start character finds a match if there is one, and the first place at which one begins. |
| ReExec.TryAll | usr/src/minix/commands/cawf/regexp.c:771-776 | So does trying every place, the end included. |
| ReExec.RegExec | usr/src/minix/commands/cawf/regexp.c:718-780 | regexec says yes exactly when some part of the string matches, whatever hints it uses, and the bounds it reports are those of a match before which none begins. |
| ReExec.Search | usr/src/minix/commands/cawf/regexp.c:202-780 | For every pattern and string: compiling and executing answers yes exactly when the pattern parses, is small enough, and some part of the string matches its denotation; the bounds are those of a match at the first place where there is one. |
| DiffLcs.RowNext | usr/src/minix/commands/diff/diffreg.c:663-691 | If every match of a line has been tried, the ends found are the least for which common subsequences of each length exist. |
| DiffLcs.RowLcs | usr/src/minix/commands/diff/diffreg.c:663-692 | The last row gives the length of a longest common subsequence. |
| DiffLcs.LcsPruned | usr/src/minix/commands/diff/diffreg.c:582-601 | Dropping a common beginning and end takes just their lengths off the longest common subsequence. |
| DiffSort.Sink | usr/src/minix/commands/diff/diffreg.c:867-881 | An element sinks along its chain; with gap 1 the lines up to it are in order. |
| DiffSort.Pass | usr/src/minix/commands/diff/diffreg.c:865-882 | A pass permutes the lines; the pass with gap 1 sorts them. |
| DiffSort.Sort | usr/src/minix/commands/diff/diffreg.c:853-884 | The lines end up sorted by hash value and serial number and are the same lines. |
| DiffSort.SortedIndex | usr/src/minix/commands/diff/diffreg.c:853-884 | Sorting numbered lines gives each line once. |
| DiffClass.FindClasses | usr/src/minix/commands/diff/diffreg.c:608-618 | Each line of the first file gets the place of the first line of the second with its value, or 0. |
| DiffClass.ListMembers | usr/src/minix/commands/diff/diffreg.c:619-628 | The member list holds the serial numbers class by class, the first of each class negated. |
| DiffClass.Equiv | usr/src/minix/commands/diff/diffreg.c:603-629 | Both. |
| DiffClass.Unsort | usr/src/minix/commands/diff/diffreg.c:886-897 | The classes are put in the order of the file. |
| DiffClass.ClassMates | usr/src/minix/commands/diff/diffreg.c:603-629 | The class of a value lists exactly the lines with that value, in order. |
| DiffStone.TrailCommon | usr/src/minix/commands/diff/diffreg.c:736-746 | Following the candidates back gives a common subsequence. |
| DiffStone.Install | usr/src/minix/commands/diff/diffreg.c:676-688 | A new candidate keeps every rung the end of a common subsequence of its length. |
| DiffStone.Found | usr/src/minix/commands/diff/diffreg.c:672-676 | The candidate a new one is chained to is the one that stood on the rung below before this line. |
| DiffMatch.Differ.constructor | usr/src/minix/commands/diff/diffreg.c:427-430 | Empty lists. |
| DiffMatch.Differ.NewCand | usr/src/minix/commands/diff/diffreg.c:695-708 | A candidate is appended. |
| DiffMatch.Differ.Search | usr/src/minix/commands/diff/diffreg.c:711-733 | The lowest rung whose end is not before y, or one above the highest. |
| DiffMatch.Differ.Place | usr/src/minix/commands/diff/diffreg.c:672-689 | A line tried against another: skipped, found there, replacing a candidate, or making a longer subsequence. |
| DiffMatch.Differ.Replace | usr/src/minix/commands/diff/diffreg.c:679-683 | A better candidate takes a rung. |
| DiffMatch.Differ.Grow | usr/src/minix/commands/diff/diffreg.c:685-688 | A longer subsequence gets a rung. |
| DiffMatch.Differ.Try | usr/src/minix/commands/diff/diffreg.c:671-690 | One turn of the inner loop keeps what has been settled. |
| DiffMatch.Differ.Mate | usr/src/minix/commands/diff/diffreg.c:667-690 | The inner loop tries all matches of a line unless the bound cuts it short. |
| DiffMatch.Differ.Stone | usr/src/minix/commands/diff/diffreg.c:650-693 | The rungs lead to common subsequences of their lengths, and the highest is longest unless the search was cut short. |
| DiffMatch.Differ.Unravel | usr/src/minix/commands/diff/diffreg.c:735-746 | The vector holds the common beginning, the matches on the trail and the common end. |
| DiffVector.UnravelledVector | usr/src/minix/commands/diff/diffreg.c:735-746 | The matches of the vector rise and match equal values. |
| DiffVector.UnravelledCount | usr/src/minix/commands/diff/diffreg.c:735-746 | It has as many matches as beginning, trail and end together. |
| DiffVector.PrunedLcs | usr/src/minix/commands/diff/diffreg.c:582-601 | If the trail is longest in the middle the matches are as many as can be in the whole files. |
| DiffVector.VectorCommon | usr/src/minix/commands/diff/diffreg.c:735-746 | The matches of a vector are a common subsequence of that length. |
| DiffMatch.PrefixLength | usr/src/minix/commands/diff/diffreg.c:587-590 | The longest common beginning. |
| DiffMatch.SuffixLength | usr/src/minix/commands/diff/diffreg.c:591-594 | The longest common end of the rest. |
| DiffMatch.Prune | usr/src/minix/commands/diff/diffreg.c:582-601 | Both, and the lines between numbered. |
| DiffMatch.Number | usr/src/minix/commands/diff/diffreg.c:595-600 | The lines between get serial numbers. |
| DiffMatch.Classes | usr/src/minix/commands/diff/diffreg.c:416-425 | Sorting, equiv and unsort together list for each line the lines it matches. |
| DiffMatch.Fill | usr/src/minix/commands/diff/diffreg.c:427-436 | The candidates and the vector they lead to. |
| DiffMatch.Match | usr/src/minix/commands/diff/diffreg.c:415-436 | The vector matches equal hash values in order; with D_MINIMAL, and whenever the bound is not below the length of the second file, the matches are as many as a longest common subsequence has. |
| DiffHunks.ScriptLast | usr/src/minix/commands/diff/diffreg.c:919-943 | A script read from the front is the script read from the back. |
| DiffHunks.ScriptTurns | usr/src/minix/commands/diff/diffreg.c:919-930 | The hunks of a vector of matches, carried out on the first file, give the second. |
| DiffHunks.BackwardTurns | usr/src/minix/commands/diff/diffreg.c:931-943 | Carried out one after the other from the back, without renumbering, they do too. |
| DiffLeast.ScriptSums | usr/src/minix/commands/diff/diffreg.c:919-930 | The hunks of a vector delete and add just the lines that it does not match. |
| DiffLeast.SameLcs | usr/src/minix/commands/diff/diffreg.c:1226-1285 | If lines of the files with the same hash value are equal, the longest common subsequences of the hash values are as long as those of the lines. |
| DiffLeast.MatchesBound | usr/src/minix/commands/diff/diffreg.c:735-746 | No vector of equal lines has more matches than a longest common subsequence of the hash values. |
| DiffLeast.LeastHunks | usr/src/minix/commands/diff/diffreg.c:909-945 | If it has as many, its hunks delete and add no more lines than those of any other vector of equal lines. |
| DiffOutput.SkipMatched | usr/src/minix/commands/diff/diffreg.c:921-922 | The loop skips matches that follow one another. |
| DiffOutput.GapEnd | usr/src/minix/commands/diff/diffreg.c:924-926 | The loop finds the end of a gap. |
| DiffOutput.SkipMatchedBack | usr/src/minix/commands/diff/diffreg.c:933-934 | The same from the back. |
| DiffOutput.GapStart | usr/src/minix/commands/diff/diffreg.c:936-938 | The same from the back. |
| DiffOutput.Printer.constructor | usr/src/minix/commands/diff/diffreg.c:909-918 | Nothing printed. |
| DiffOutput.Printer.Change | usr/src/minix/commands/diff/diffreg.c:1013-1023 | A hunk is printed unless it is empty. |
| DiffOutput.Printer.Forward | usr/src/minix/commands/diff/diffreg.c:919-930 | The loop ends though it revisits lines, and prints the script of the vector. |
| DiffOutput.Printer.Backward | usr/src/minix/commands/diff/diffreg.c:931-942 | The loop ends and prints the same hunks in reverse order. |
| DiffOutput.Printer.Output | usr/src/minix/commands/diff/diffreg.c:909-945 | The hunks are those of the vector, in the order of the format, also for an empty file. |
| DiffText.FlatLines | usr/src/minix/commands/diff/diffreg.c:557-580 | The lines of a file put together are the file. |
| DiffText.Reader.constructor | usr/src/minix/commands/diff/diffreg.c:564 | A file at its start. |
| DiffText.Reader.GetC | usr/src/minix/commands/diff/diffreg.c:1240-1250 | The next byte or EOF. |
| DiffText.Reader.SkipLine | usr/src/minix/commands/diff/diffreg.c:899-907 | The rest of a line is skipped. |
| DiffText.Reader.ReadHash | usr/src/minix/commands/diff/diffreg.c:1226-1285 | The hash value of the next line, never 0, or 0 at the end of the file. |
| DiffText.ReadValues | usr/src/minix/commands/diff/diffreg.c:571-577 | The hash values of all lines. |
| DiffText.Prepare | usr/src/minix/commands/diff/diffreg.c:557-580 | The lines of a file with their hash values. |
| DiffCheck.Compare | usr/src/minix/commands/diff/diffreg.c:824-840 | Whether two lines are equal byte by byte, with both files then at their next lines unless the first is at its end. |
| DiffCheck.CheckLine | usr/src/minix/commands/diff/diffreg.c:771-840 | The matched line of the second file is found and compared. |
| DiffCheck.CheckOne | usr/src/minix/commands/diff/diffreg.c:767-843 | One turn of the loop. |
| DiffCheck.Check | usr/src/minix/commands/diff/diffreg.c:754-851 | A match is broken exactly if its lines differ. |
| DiffCheck.CheckedVector | usr/src/minix/commands/diff/diffreg.c:748-753 | What is left matches equal lines in order. |
| DiffCheck.NoneBroken | usr/src/minix/commands/diff/diffreg.c:754-851 | If hash values tell lines apart the check breaks no match. |
| DiffCheck.ShortHunks | usr/src/minix/commands/diff/diffreg.c:754-945 | Then, with matches as many as can be, the lines the hunks leave are as many as a longest common subsequence of the lines has; and always the hunks add as many more lines than they delete as the second file is longer. |
| DiffCheck.Diff | usr/src/minix/commands/diff/diffreg.c:412-442 | From two files to hunks: carried out on the first they give the second, byte for byte. With D_MINIMAL, if lines with the same hash value are equal, they leave as many lines as a longest common subsequence of the lines has. |
| CronTab.YearNext | usr/src/minix/commands/cron/tab.c:149-161 | The calendar: a year is as long as its months. |
| CronTab.LessIsSooner | usr/src/minix/commands/cron/tab.c:149-161 | Of two minutes that exist the one that is first in its fields is first in time. |
| CronTab.Carry | usr/src/minix/commands/cron/tab.c:55-78 | The carries lead to the first proper time that is not before the given one. |
| CronTab.Advance | usr/src/minix/commands/cron/tab.c:95-249 | The tests let a time pass only if the job fits, and otherwise go on to a later time with nothing that fits in between. |
| CronTab.Search | usr/src/minix/commands/cron/tab.c:49-251 | The search ends with the first time after the previous one at which the job fits, or with NEVER exactly when there is none within eight calendar years. |
| CronTab.NextRunUnique | usr/src/minix/commands/cron/tab.c:34-267 | That time is unique. |
| CronTab.NextRunSoonest | usr/src/minix/commands/cron/tab.c:34-267 | It is first in time. |
| CronTab.CronJob.constructor | usr/src/minix/commands/cron/tab.c:34-50 | A job that last ran at a given time. |
| CronTab.CronJob.Reschedule | usr/src/minix/commands/cron/tab.c:34-267 | The job's next run, whether it is late, and the soonest run of all; an AT job is never run again and a late one starts from now. |

## Left out

Kernel:

- RunQueueSched.Scheduler.SchedProc: requires a priority other than NR_SCHED_QUEUES, for which the source indexes past its queues; RunQueue.SchedOkIff covers that value on the specification.
- RunQueueCheck.CheckQueue: a pointer into the middle of a slot, or to a slot without its magic number, counts as one outside the process table; tails are slots or null, because the source follows them before it looks at them.
- RunQueueCheck.RunqueuesOk: the same; and the process table itself has its magic numbers.
- IrqTable.Table.DisableIrq: requires a hook that has been put on a line at some time, since its line number is used as it is.
- IrqTable.Table.IrqHandle: the answers of the handlers are given, the handlers themselves are not modelled, and the count of spurious interrupts is left out.
- IpcKernel.Kernel.MiniSend: the failed assertion on the queue link is a result of its own and leaves the state as it was; copying from user memory always succeeds.
- IpcKernel.Kernel.MiniReceive: is never called with NON_BLOCKING, as in the source; the assertion that a queued sender has an endpoint is not modelled.
- IpcKernel.Kernel.MiniSenda: copy faults of the table are left out; a table that is too large counts as empty.
- IpcKernel.Kernel.HasPending: looks at pending bits one by one, not chunk by chunk.
- IpcKernel.Kernel.HandOver: copying a message to its process is one step that always succeeds.
- Message contents are known by the identity of the message; status words in registers are not modelled.
- Endpoints are process slots: generations of a slot, do_fork and signals are not modelled. Every process owns its privilege structure.
- Process flags are sets; the idle process is the slot -1. Time accounting, billing, FPU, SMP and tracing are left out.
- RTS_SETFLAGS is left out: it dequeues while the process still counts as runnable, and its users are outside these files.

compress and decomp16:

- LzwDecompress.Decompressor.Decompress: a code that the table does not hold, on which the source reads entries it has not set, gives the result Corrupt.
- LzwFile.Uncompress: a width limit below 9, which compress never writes, gives Corrupt.
- LzwCompress.Compressor.ClBlock: the ratio test is arbitrary, so every schedule of clears is covered; 32-bit overflow of the counters is not modelled.
- LzwCompress.Compressor.Probe: the table size is always 69001; slots that hold key 0 count as free, as in the source, so hits are proved sound and misses are not proved complete.
- LzwBits.GetBitsIsField: the load past the block at width 16, which is masked to nothing, is skipped.
- D16Main.Decomp16: the passes run one after the other as with -4 to -0; forking and the buffering of the compressed input and of the final output are left out, and so are files with a code that stands for nothing, on which the source follows entries it has not set.
- D16Top.RunTop: requires that every code it finds stands for something, for the same reason.
- D16Main.FirstPass: requires the same of a file with a right header.
- D16Main.BothDecompress: requires that a 9-bit dictionary has not been full; D16Nine.NineBitsFile is a file on which the two differ.
- D16Stage.Stage.RunPipe: requires a stream whose indices mean something up to the first one out of range, which is all the source tests for.
- File naming, statistics and copying of file attributes are left out.

regexp:

- ReExec.RegExec: reports the bounds of the whole match but not those of subexpressions; null arguments are not modelled.
- ReExec.HasMust: the length of the string that must appear is kept in one byte, so only as many characters are compared as the low byte of the length says.
- regdump, regprop and error texts are left out.

diff:

- DiffMatch.Differ.Stone: the square root that bounds the search is a parameter, so every bound is covered; storage growth is left out.
- DiffMatch.Match: the overlay of the class and member lists on the file arrays is not modelled.
- DiffText.Reader.ReadHash: without the options that fold case or blanks.
- DiffCheck.Check: without those options, and without the tables of line offsets, which only printing uses.
- DiffOutput.Printer.Change: ends where a hunk is known to be one; formats, context, #ifdef merging, ignore patterns and the escaping of dots are left out.
- Opening files, binary files and the pager are left out.

cron:

- CronTab.CronJob.Reschedule: the calendar has no daylight saving and mktime does not fail; times are broken-down local times, and CronTab.LessIsSooner ties them to minutes on end.
- Parsing of crontabs, including the month shift, and launching jobs are left out.

Other programs of the system are not modelled.
