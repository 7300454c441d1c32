# Verified models of the vehicle test bench and its diagnostic script tools

The repository drives a vehicle test bench: a desktop application sends CAN messages to wipers, valves and pumps, talks to a
leak tester over a serial line and keeps result files. Beside it stands a tool chain that turns diagnostic procedures into
Python scripts. This project models the parts of both whose correctness does not show from reading one function, and proves
what they promise. `dafny verify dfyconfig.toml` checks everything.

| component | files | main results |
|---|---|---|
| goto patcher for CPython bytecode | Bytecode, BytecodeUnits, GotoSites, GotoBlocks, GotoPatch, GotoAccept, GotoRewrite, GotoRun, GotoLoop | the codec reads and writes what CPython reads; when a goto is accepted, and the error otherwise; patched code runs as intended |
| procedure generator | Indentation, ArgumentList, Generator, GeneratorMeaning, HeaderMeaning, GeneratorRun, ConditionGaps, GeneratorCalls, CallArity, CallMeaning, CallsServed, GeneratorWriter, StepTree, Worklist | the text means, and runs as, the step tree; every call has its function; the worklist ends and visits each call path once |
| serial line | ModbusCrc, CrcDetection, CrcPreset, SerialFrame | burst detection; reassembly from any chunks; corrupt replies are never reported |
| CAN messages and their senders | Signals, Frame683, Frame680, Frame680Signals, Frame443, WiperRun, ValveRun, SendQueue | signals read back; messages are snapshots in every interleaving; the queue keeps order; when closing ends the sender |
| result files | ResultFile | what survives saving and playback |
| response expansion | ParamExpansion, ParamLookups, EqualParams, ParamSurvivors | what a loop over a shrinking and growing list leaves |

`Wrappers` and `Strings` hold shared helpers.

Code that changes state is modelled as methods over arrays and classes (the patch buffer, the message buffers, the output file
and the lists beside it, the result tables, the parameter list), each proved against a function whose properties are then
proved as lemmas. Threads are modelled as state machines with one step per statement. The CRC is the one of sections 2.5.1.2
and 6.2.2 of "MODBUS over Serial Line Specification and Implementation Guide V1.02".

Where the code does not do what one would expect, the exact condition is proved:

- Patching a code string twice differs from patching it once exactly when two labels share a name (`GotoRewrite.PatchTwice`).
- An empty value of a string-like variable that is not bound gives a call with an argument missing (`CallsServed.EmptyArg`,
  `CallsServed.CallsMatchDefinitions`).
- The PCAN send loop may dequeue from an empty queue after a spurious wake-up (`SendQueue.NeverEmptyIff`), and
  `closeConnection` misses a sender exactly when at the wake nothing is queued, no call is under way and the sender has
  looked at `m_running` but does not wait yet (`SendQueue.ClosingEndsIff`).
- The send thread ends at once exactly if it looks at `m_running` before `openConnection` sets it
  (`SendQueue.StartedTooEarly`).
- The task of the left lidar valve exchanges cycle count and open duration (`ValveRun.AsTheRowSays`).
- The chassis LED request is written over two bits of an authentication byte (`Frame680Signals.AuthCodeReadsBack`).
- A row of the result file whose first field starts with a space or like a heading, or whose last ends with a space, is lost
  or changed (`ResultFile.RowRestored`).
- A number with a leading zero is copied into a call, where it is no Python literal (`CallMeaning.InputMeans`).
- Of neighbouring table key references every second one stays unexpanded (`ParamSurvivors.EverySecondSurvives`).
- Procedures are generated breadth first although the generator is recursive, and one that is reached on two call paths is
  generated twice, into the same file (`Worklist.GeneratedOncePerPath`).

These, too, are proved for all inputs:

- A step under a condition at "Always" is indented without a header: as the first step it makes Python refuse `main`, and
  behind a step under a condition it becomes part of that one (`ConditionGaps.GapIsNoPython`, `ConditionGaps.AlwaysBecomesChild`).
- A request with several row references looks up the second in a table called like the first (`ParamLookups.OnlyTheFirst`).
- Local variables and `SetValue` pairs of one procedure stay known in all that are generated later
  (`Worklist.NothingCleared`).

## Model

| member | source | states |
|---|---|---|
| `Bytecode.ParseInstructions` | remote_cod/diag_script_parser/GenerateOtx/goto.py:60-85 | the parser's loop, prefixes and truncation included, against a recursive reading of the code string |
| `Bytecode.WriteInstruction` | remote_cod/diag_script_parser/GenerateOtx/goto.py:88-102 | which bytes are overwritten and which are not, the position behind them, and when the buffer is overrun |
| `Bytecode.FetchEncoded` | remote_cod/diag_script_parser/GenerateOtx/goto.py:60-102 | one written instruction is fetched back whole, for any operand and however many prefixes it takes |
| `Bytecode.ParseEncoded` | remote_cod/diag_script_parser/GenerateOtx/goto.py:60-102 | any sequence of written instructions inside any code string is parsed back with its opcodes, operands and offsets, and what follows is parsed as before |
| `Bytecode.RoundTrip` | remote_cod/diag_script_parser/GenerateOtx/goto.py:60-102 | parsing what was written gives the operations back, in both bytecode formats |
| `BytecodeUnits.FetchReads` | remote_cod/diag_script_parser/GenerateOtx/goto.py:60-85 | what is fetched at any position of any bytes, in CPython's reading: the instruction whose argument is the base-256 number of its units' argument bytes (base 65536, low byte first, in the two-byte format), first prefix most significant; or the end; or a truncated argument; each exactly when it stands there |
| `BytecodeUnits.ParseReads` | remote_cod/diag_script_parser/GenerateOtx/goto.py:60-85 | the parser returns an instruction list if and only if the bytes are that list, unit by unit; otherwise it fails |
| `BytecodeUnits.WrittenSpells` | remote_cod/diag_script_parser/GenerateOtx/goto.py:88-102 | the bytes a written instruction leaves spell its argument in that reading, with no needless prefix, and no other byte changes |
| `BytecodeUnits.EncodedSize` | remote_cod/diag_script_parser/GenerateOtx/goto.py:88-102 | a written instruction has as many units as its argument has digits |
| `GotoSites.FindLabelsAndGotos` | remote_cod/diag_script_parser/GenerateOtx/goto.py:105-141 | the window and block-stack loop finds exactly the label and goto sites of the instruction list, with their block stacks; the last label of a name wins |
| `GotoBlocks.StackOrdered` | remote_cod/diag_script_parser/GenerateOtx/goto.py:105-141 | the static block stack is strictly increasing and holds only numbers already given out |
| `GotoBlocks.IdsDiffer` | remote_cod/diag_script_parser/GenerateOtx/goto.py:105-141 | block numbers are never reused |
| `GotoBlocks.OpenIsListed` | remote_cod/diag_script_parser/GenerateOtx/goto.py:105-141 | a block that has not been closed is on the stack, above exactly the blocks it was opened in |
| `GotoBlocks.ListedIsOpen` | remote_cod/diag_script_parser/GenerateOtx/goto.py:105-141 | every number on the stack belongs to a block instance that is still open |
| `GotoBlocks.PrefixTestExact` | remote_cod/diag_script_parser/GenerateOtx/goto.py:161-163 | the prefix test accepts a goto if and only if every block instance open at the label is still open at the goto |
| `GotoBlocks.OpenIsUnclosed` | remote_cod/diag_script_parser/GenerateOtx/goto.py:105-141 | a block is open, by the stack, if and only if more blocks have been opened than closed at every point since its setup |
| `GotoBlocks.StackCounts` | remote_cod/diag_script_parser/GenerateOtx/goto.py:105-141 | the stack is as high as there are open block instances |
| `GotoPatch.InjectNopSled` | remote_cod/diag_script_parser/GenerateOtx/goto.py:144-146 | what the sled writes and when it overruns the buffer |
| `GotoPatch.WriteJump` | remote_cod/diag_script_parser/GenerateOtx/goto.py:165-171 | the POP_BLOCKs and the jump stand behind each other at the start of the site, or the buffer was too short |
| `GotoPatch.Listing.Disjoint` | remote_cod/diag_script_parser/GenerateOtx/goto.py:105-141 | no byte belongs to two sites |
| `GotoPatch.SledFills` | remote_cod/diag_script_parser/GenerateOtx/goto.py:144-146 | a sled ends exactly at the end of its gap |
| `GotoPatch.ReplacementFills` | remote_cod/diag_script_parser/GenerateOtx/goto.py:149-178 | what replaces a site is exactly as long as the site |
| `GotoPatch.PatchLabels` | remote_cod/diag_script_parser/GenerateOtx/goto.py:149-153 | whatever the order of the dictionary, exactly the live label sites become sleds and no other byte changes |
| `GotoPatch.PatchGoto` | remote_cod/diag_script_parser/GenerateOtx/goto.py:155-176 | one goto: its error, or its site overwritten with every other site kept |
| `GotoPatch.PatchGotos` | remote_cod/diag_script_parser/GenerateOtx/goto.py:155-176 | the first goto that cannot be patched decides the error; otherwise all live sites are overwritten |
| `GotoPatch.PatchCode` | remote_cod/diag_script_parser/GenerateOtx/goto.py:149-178 | the outcome for every code string: which error, or the length kept, each live site replaced, every byte outside the sites unchanged |
| `GotoAccept.AcceptedIff` | remote_cod/diag_script_parser/GenerateOtx/goto.py:149-178 | a scannable code string is patched if and only if for every goto some label has its name, every block instance open at the last such label is still open at the goto, and one POP_BLOCK a block left and the jump fit the site; otherwise the first goto that fails gives the error, unknown label, different block or too many blocks by which of the three fails first |
| `GotoAccept.MalformedIff` | remote_cod/diag_script_parser/GenerateOtx/goto.py:60-141 | a code string is malformed if and only if its bytes are no instruction list or a site has an unknown name |
| `GotoAccept.PatchableIff` | remote_cod/diag_script_parser/GenerateOtx/goto.py:149-178 | the assumption of the following rows on rewriting and running is that condition |
| `GotoLoop.LoopLeft` | remote_cod/diag_script_parser/GenerateOtx/goto.py:60-178 | a goto out of a loop, from its twenty bytes to the twenty patched bytes |
| `GotoRewrite.PatchedMeaning` | remote_cod/diag_script_parser/GenerateOtx/goto.py:149-178 | parsing the patched bytes gives the original instruction list with each live site replaced by its instructions |
| `GotoRewrite.SecondScan` | remote_cod/diag_script_parser/GenerateOtx/goto.py:149-178 | a second pass finds its sites without error and finds no goto |
| `GotoRewrite.PatchTwice` | remote_cod/diag_script_parser/GenerateOtx/goto.py:149-178 | patching twice equals patching once if and only if label names are distinct |
| `GotoRun.Simulates` | remote_cod/diag_script_parser/GenerateOtx/goto.py:149-178 | after a computable number of steps the patched code is exactly where the intended run is, and in between its data is that of the intended step under way |
| `GotoRun.PatchedRunIsIntended` | remote_cod/diag_script_parser/GenerateOtx/goto.py:149-178 | every run of the patched code, of any length and whatever leaving a block does to the data, is a run of the original with labels read as no-ops and gotos as "unwind to the label's blocks, continue behind it" |
| `GotoRun.InstructionIsClear` | remote_cod/diag_script_parser/GenerateOtx/goto.py:105-178 | control at any instruction of the original that belongs to no live site, or behind the code, satisfies the assumption on control |
| `GotoRewrite.TwoLabelsPatchedAgain` | remote_cod/diag_script_parser/GenerateOtx/goto.py:149-178 | `label .x` written twice: a second pass changes the code again |
| `ModbusCrc.CRC16` | meapp/ProcessExecutor.cpp:35-58 | the two nested loops against the register recursion |
| `ModbusCrc.AppendCRC` | meapp/ProcessExecutor.cpp:60-66 | low byte first, then high byte |
| `ModbusCrc.CheckCRC` | meapp/ProcessExecutor.cpp:68-81 | accepts only strings of three bytes or more whose last two match |
| `ModbusCrc.ShiftLinear` | meapp/ProcessExecutor.cpp:42-52 | the shift step is linear over GF(2) |
| `ModbusCrc.ShiftInjective` | meapp/ProcessExecutor.cpp:42-52 | the shift step is injective |
| `CrcDetection.CrcIsBits` | meapp/ProcessExecutor.cpp:35-58 | the byte-wise loops are one pass over the bits of the message, least significant first |
| `CrcDetection.AcceptsIffResidueZero` | meapp/ProcessExecutor.cpp:68-81 | a string of at least three bytes is accepted if and only if its CRC over everything is zero |
| `CrcDetection.AppendedIsAccepted` | meapp/ProcessExecutor.cpp:60-81 | what `AppendCRC` makes of a command is accepted if and only if the command was not empty |
| `CrcDetection.ChangeAccepted` | meapp/ProcessExecutor.cpp:68-81 | whether a changed frame is still accepted depends on the changed bits only |
| `CrcDetection.BurstDetected` | meapp/ProcessExecutor.cpp:35-81 | every change within 16 consecutive bits of an accepted frame of any length is rejected |
| `CrcDetection.GeneratorEscapes` | meapp/ProcessExecutor.cpp:35-81 | 16 is the limit: flipping the generator's four bits, 17 from first to last, is accepted at every position of every frame |
| `CrcDetection.OddErrorsDetected` | meapp/ProcessExecutor.cpp:35-81 | every change of an odd number of bits is rejected |
| `CrcPreset.PresetInverts` | meapp/ProcessExecutor.cpp:35-58 | starting from 0xFFFF is inverting the first 16 bits of the message and starting from zero |
| `CrcPreset.ZeroInFront` | meapp/ProcessExecutor.cpp:35-81 | a zero byte in front of an accepted message is always rejected |
| `CrcPreset.CheckValue` | meapp/ProcessExecutor.cpp:35-58 | the CRC of the nine digits is the catalogue's check value 0x4B37 |
| `SerialFrame.Recv` | meapp/ProcessExecutor.cpp:220-270 | the receive loop over any sequence of silences, empty reads and chunks |
| `SerialFrame.ReceivesPrefix` | meapp/ProcessExecutor.cpp:220-270 | it returns a prefix of what was delivered, all of it unless the reply was complete before |
| `SerialFrame.ReplyReassembled` | meapp/ProcessExecutor.cpp:220-270 | a complete function-0x03 reply, or six-byte acknowledgement, is returned exactly, however it is split into chunks and whatever follows |
| `SerialFrame.OthersWait` | meapp/ProcessExecutor.cpp:220-270 | a reply to any other function is everything up to silence |
| `SerialFrame.Transceive` | meapp/ProcessExecutor.cpp:272-304 | replies of eight bytes or more must pass the check, shorter ones are passed on unchecked |
| `SerialFrame.ReadLastResult` | meapp/ProcessExecutor.cpp:506-627 | true if and only if the reply passed the check, has function 3 and byte count 24, and carries an alarm or the PASS bit; the request is the eight bytes that ask for registers 0x11 to 0x1C |
| `SerialFrame.IntactReported` | meapp/ProcessExecutor.cpp:506-627 | an intact reply is reported exactly if it is conclusive, however it arrives |
| `SerialFrame.ReplyReported` | meapp/ProcessExecutor.cpp:506-627 | for every result the tester may hold, sent as twelve registers low byte first: reported if and only if it holds an alarm or a PASS, however the reply is split |
| `SerialFrame.CorruptNotReported` | meapp/ProcessExecutor.cpp:220-627 | a reply hit by a burst of at most 16 bits is never reported, even where the burst changes the announced length or the function code |
| `Signals.ByteSetValue` | meapp/singleApi/byte.c:35-56 | one byte of the buffer changes, as the bit-by-bit definition of the field says; out-of-range arguments change nothing, a field that would leave the byte is cut |
| `Signals.MergeIsSetBits` | meapp/singleApi/byte.c:35-56 | the masks select exactly the bits of the field and the sum never carries |
| `Signals.BitOfSetBits` | meapp/singleApi/byte.c:35-56 | which bits of a byte a write sets, and to what |
| `Signals.BoundedValue` | meapp/singleApi/protocol_data.c:4-17 | the value itself between the bounds, the nearer bound outside them, and the value itself if the bounds are exchanged |
| `Signals.ExtractSignal` | meapp/mainwindow.cpp:352-368 | the bit loop over bytes and bit positions spells the number whose bits stand there, least significant first; 32 bits are read as a signed number |
| `Signals.ExtractValue` | meapp/mainwindow.cpp:352-368 | bits that agree with those of a number spell that number, cut to the length |
| `Signals.BitOfLast` | meapp/singleApi/cdc_control2_683.c:783-868 | in any sequence of writes a bit belongs to the last write that covers it |
| `Signals.FieldReadBack` | meapp/mainwindow.cpp:352-368 | a field that no later write touches is extracted as the written value, cut to the field |
| `Signals.Overwrites` | meapp/singleApi/cdc_control2_683.c:783-868 | two passes of the same setters leave nothing of the first |
| `Frame683.Message.SetPower` | meapp/singleApi/cdc_control2_683.c:130-149 | two bits per valve and no bit elsewhere |
| `Frame683.Message.SetOpenDrtn` | meapp/singleApi/cdc_control2_683.c:151-178 | the six-bit duration split over two bytes |
| `Frame683.Message.SetSecoc` | meapp/singleApi/cdc_control2_683.c:751-780 | one authentication byte, clamped |
| `Frame683.Message.UpdateData` | meapp/singleApi/cdc_control2_683.c:783-868 | the buffer after all 104 writes, from any buffer before |
| `Frame683.Owns` | meapp/singleApi/cdc_control2_683.c:783-868 | every bit of the message is written by at most one call, given in closed form |
| `Frame683.OpenSteps` | meapp/singleApi/cdc_control2_683.c:159-170 | the open duration in units of 5, cut to 0..200 and rounded down |
| `Frame683.CloseSteps` | meapp/singleApi/cdc_control2_683.c:173-178 | the close duration in units of 50, cut to 0..2000 and rounded down |
| `Frame683.ValveReadsBack` | meapp/singleApi/cdc_control2_683.c:783-868 | `extractSignal` returns power, spray number, open and close duration of every valve as the clamped, scaled value of the struct |
| `Frame683.OpenDrtnReadsBack` | meapp/singleApi/cdc_control2_683.c:151-178 | the split duration is read back whole |
| `Frame683.SecocReadsBack` | meapp/singleApi/cdc_control2_683.c:751-868 | so are the authentication bytes |
| `Frame683.UnownedKept` | meapp/singleApi/cdc_control2_683.c:783-868 | bits that belong to no signal keep their value |
| `Frame683.UpdateForgets` | meapp/singleApi/cdc_control2_683.c:783-868 | updating with A and then B leaves the same buffer as updating with B alone |
| `Frame680.UpdateData` | meapp/singleApi/cdc_control1_680.c:647-738 | the buffer after all ninety writes, in their order |
| `Frame680.Layout` | meapp/singleApi/cdc_control1_680.c:647-738 | every bit has one writer, except bits 2 and 3 of the second authentication byte |
| `Frame680Signals.StructCarried` | meapp/singleApi/cdc_control1_680.c:11-738 | a receiver that knows start bits and lengths reads all other signals of the struct, each by its name, clamped or cut, whatever the buffer held before |
| `Frame680Signals.AuthCodeReadsBack` | meapp/singleApi/cdc_control1_680.c:542-632 | what arrives in that byte, and that it reads back if and only if its bits 2 and 3 equal the chassis LED request written over them |
| `Frame680Signals.AuthCodeLost` | meapp/singleApi/cdc_control1_680.c:542-632 | with a request of 1 a code byte of 0 arrives as 4 |
| `Frame680.PumpSteps` | meapp/singleApi/cdc_control1_680.c:91-96 | the pump speed in tenths, cut to 0..25.5 and rounded down |
| `Frame680.UnownedKept` | meapp/singleApi/cdc_control1_680.c:647-738 | bits that belong to no signal keep their value |
| `Frame680.UpdateForgets` | meapp/singleApi/cdc_control1_680.c:647-738 | an update hides every update before it, the overlap included |
| `Frame443.UpdateData` | meapp/singleApi/cdc_15_443.c:602-686 | the buffer after all eighty-two writes |
| `Frame443.Owns` | meapp/singleApi/cdc_15_443.c:602-686 | every bit has at most one writer |
| `Frame443.StructCarried` | meapp/singleApi/cdc_15_443.c:12-686 | a receiver that knows start bits and lengths reads the six signals of each of the twelve wipers and the ten others, clamped or cut |
| `Frame443.UnownedKept` | meapp/singleApi/cdc_15_443.c:602-686 | bits that belong to no signal keep their value |
| `Frame443.CommandReadsBack` | meapp/singleApi/cdc_15_443.c:602-686 | control, frequency and count of each wiper are read back as one command |
| `Frame443.UpdateForgets` | meapp/singleApi/cdc_15_443.c:602-686 | an update hides every update before it |
| `WiperRun.StepInv` | meapp/mainwindow.cpp:2006-2583 | every statement of every thread keeps the invariant of mutexes, struct, buffer and sent messages |
| `WiperRun.RunInv` | meapp/mainwindow.cpp:2006-2583 | so it holds in every interleaving |
| `WiperRun.FramesAreSnapshots` | meapp/mainwindow.cpp:1985-1994 | the n-th message shows, for every wiper, one whole update of its own thread: the latest among the first n + 1 critical sections |
| `WiperRun.ScriptAsks` | meapp/mainwindow.cpp:2006-2583 | which commands a row asks of its wiper, in order: strokes for cleaning, then for rinsing, each with its own count and frequency and each followed by standby, the lidar wipers in standby first |
| `WiperRun.ParkedAtTheEnd` | meapp/mainwindow.cpp:2006-2583 | once all threads are through, every wiper that ran is in standby with zero frequency and count, in the struct and in the last message |
| `WiperRun.NoDeadlock` | meapp/mainwindow.cpp:1985-2583 | as long as some thread has updates left, some thread can move |
| `ValveRun.StepKeeps` | meapp/mainwindow.cpp:1974-1983 | every statement of every valve task keeps the invariant of mutex, buffer and frames |
| `ValveRun.FramesAreOwn` | meapp/mainwindow.cpp:1974-1983 | in every interleaving the n-th 0x683 frame is the encoding of the next struct of the task that enqueued it, with nothing of another task left in it |
| `ValveRun.AllAreSent` | meapp/mainwindow.cpp:2585-3557 | when all tasks are through, each has enqueued one frame per struct |
| `ValveRun.NoDeadlock` | meapp/mainwindow.cpp:1974-1983 | as long as a task has structs left, some task can move |
| `ValveRun.OrderMayChange` | meapp/mainwindow.cpp:1974-1983 | of any two tasks with something to send, the one that encodes first may enqueue second |
| `ValveRun.OwnValve` | meapp/mainwindow.cpp:2585-3532 | no two tasks drive the same valve |
| `ValveRun.TaskFrames` | meapp/mainwindow.cpp:2585-3557 | the frames of each task in the bits of its own valve: on and off, or reset and intermittent, or none |
| `ValveRun.OthersUntouched` | meapp/mainwindow.cpp:2585-3532 | a task's frame asks nothing of any other valve |
| `ValveRun.AsTheRowSays` | meapp/mainwindow.cpp:2769-2815 | the frame of an intermittent spray asks for the row's cycle count and open duration if and only if it is not the left lidar valve's, or the two come out alike |
| `ValveRun.LeftLidarExchanged` | meapp/mainwindow.cpp:2769-2815 | three sprays of 100 on the left lidar valve come out as fifteen of nothing |
| `SendQueue.StepKeeps` | meapp/cancomm_pcanfd.cpp:225-313 | every statement of producers, sender and closer keeps order, mutex ownership and the reason why a woken sender may dequeue |
| `SendQueue.SentInOrder` | meapp/cancomm.cpp:293-313 | sent messages, then the one in flight, then the queue are the enqueue history in order, and no dequeue meets an empty queue: with spurious wake-ups for the re-checking loop, without them for the other |
| `SendQueue.NeverEmptyIff` | meapp/cancomm_pcanfd.cpp:297-313 | a dequeue from an empty queue is impossible if and only if the loop re-checks or wake-ups are never spurious |
| `SendQueue.SpuriousWakeBreaks` | meapp/cancomm_pcanfd.cpp:297-313 | one spurious wake-up is enough for the loop that does not re-check |
| `SendQueue.EndsIff` | meapp/cancomm_pcanfd.cpp:70-88 | when everyone else is through, the sender ends by itself if and only if there is something to send or it is not on its way into the wait |
| `SendQueue.ClosingEndsIff` | meapp/cancomm_pcanfd.cpp:70-88 | from any reachable state in which `closeConnection` is about to wake, whatever happens next without new calls: the sender ends if and only if not (nothing queued, no call under way, and the sender past its look at `m_running` and not yet waiting) |
| `SendQueue.StartedTooEarly` | meapp/cancomm_pcanfd.cpp:46-53 | the thread ends at once if and only if it looks at `m_running` before `openConnection` sets it |
| `SendQueue.WaitsForGood` | meapp/cancomm_pcanfd.cpp:70-88 | a sender that waits when everyone else is through waits for good |
| `SendQueue.CloseMayMissTheSender` | meapp/cancomm_pcanfd.cpp:70-88 | a run in which `closeConnection` brings that about, because it clears the flag and wakes without the mutex |
| `Indentation.RenderedIsRead` | remote_cod/diag_script_parser/GenerateOtx/generatedCode.py:323-323 | lines written with tabs are read back with their indentation |
| `Indentation.LinesParsed` | remote_cod/diag_script_parser/GenerateOtx/generatedCode.py:182-206 | any well-formed program, written one tab per level, is parsed back as itself, in front of anything indented less |
| `Indentation.TextParsed` | remote_cod/diag_script_parser/GenerateOtx/generatedCode.py:182-206 | the same for a whole text |
| `GeneratorMeaning.CanonicalText` | remote_cod/diag_script_parser/GenerateOtx/generatedCode.py:271-323 | conditions in the order LAS, previous result, programmatic give one header each, each one tab further in |
| `GeneratorMeaning.TextIsProgram` | remote_cod/diag_script_parser/GenerateOtx/generatedCode.py:182-206 | the recursive generator writes exactly the lines of the step tree's program |
| `GeneratorMeaning.ProgramWellFormed` | remote_cod/diag_script_parser/GenerateOtx/generatedCode.py:182-206 | that program has no empty block and no line that reads as another |
| `GeneratorMeaning.MainMeansTree` | remote_cod/diag_script_parser/GenerateOtx/generatedCode.py:146-206 | Python reads the generated `main` as the step tree: the same statements, in order, under the same conditions |
| `GeneratorMeaning.ProgramIsWalk` | remote_cod/diag_script_parser/GenerateOtx/generatedCode.py:182-206 | its statements and the headers above them are those of a direct preorder walk of the active steps |
| `GeneratorRun.StepsRun` | remote_cod/diag_script_parser/GenerateOtx/generatedCode.py:182-206 | running the program of a step list is running the active steps, conditions asked before each step and loops repeated, for any meaning of the statements and of the expressions that the last result does not decide |
| `GeneratorRun.MainRunsTree` | remote_cod/diag_script_parser/GenerateOtx/generatedCode.py:146-206 | running the emitted text of `main` does what running the step tree does, from every state: conditions met as they name results, assessments as they name theirs, for any meaning of the statements |
| `GeneratorRun.FuelEnough` | remote_cod/diag_script_parser/GenerateOtx/generatedCode.py:182-206 | the bound on loop turns does not matter once it is large enough |
| `GeneratorRun.AssessmentRuns` | remote_cod/diag_script_parser/GenerateOtx/generatedCode.py:432-447 | the blocks of an assessment end the run after Ok or Nok, repeat the call, or exit after Ok or Abort, if both of its switches are on |
| `HeaderMeaning.PreviousHolds` | remote_cod/diag_script_parser/GenerateOtx/generatedCode.py:304-319 | read as Python, the header of a previous-result condition holds exactly at the result the condition names, and always for other values |
| `HeaderMeaning.EmptyExpressionHolds` | remote_cod/diag_script_parser/GenerateOtx/generatedCode.py:293-303 | the header of an empty programmatic expression, or of `true`, always holds |
| `HeaderMeaning.AssessmentHolds` | remote_cod/diag_script_parser/GenerateOtx/generatedCode.py:432-447 | the headers of assessments hold exactly after Ok or Nok, and after Ok or Abort |
| `HeaderMeaning.RepeatHolds` | remote_cod/diag_script_parser/GenerateOtx/generatedCode.py:438-442 | that of a repetition holds after Ok or when its expression does |
| `HeaderMeaning.LasExpressionIs` | remote_cod/diag_script_parser/GenerateOtx/generatedCode.py:283-292 | a LAS condition asks for the expression of the last LAS variable with its id, without the first character |
| `ConditionGaps.GapIsNoPython` | remote_cod/diag_script_parser/GenerateOtx/generatedCode.py:271-323 | if the first step's conditions indent it without a header, Python refuses `main`, whatever the other steps are |
| `ConditionGaps.AlwaysIndents` | remote_cod/diag_script_parser/GenerateOtx/generatedCode.py:262-323 | an active condition at "Always" does that |
| `ConditionGaps.AlwaysBecomesChild` | remote_cod/diag_script_parser/GenerateOtx/generatedCode.py:182-323 | behind a step that its conditions indent by one, a step at "Always" is written exactly as a child of that step |
| `ConditionGaps.MissingIdLeavesTrue` | remote_cod/diag_script_parser/GenerateOtx/generatedCode.py:283-287 | a LAS condition without id leaves a bare `True` on the next line |
| `ArgumentList.ItemsRead` | remote_cod/diag_script_parser/GenerateOtx/generatedCode.py:341-360 | a joined list is read back if and only if no item is empty; an empty one is an error or changes the number |
| `ArgumentList.TrailingComma` | remote_cod/diag_script_parser/GenerateOtx/generatedCode.py:239-243 | one comma too many at the end changes nothing |
| `ArgumentList.JoinRun` | remote_cod/diag_script_parser/GenerateOtx/generatedCode.py:342-348 | items joined inside a bracket stay inside it |
| `GeneratorCalls.JoinByIndex` | remote_cod/diag_script_parser/GenerateOtx/generatedCode.py:230-243 | the comma test by `list.index` puts in all commas, and one more exactly when the last item repeats an earlier one |
| `GeneratorCalls.LogIs` | remote_cod/diag_script_parser/GenerateOtx/generatedCode.py:244-246 | the split, slice and join of the log line amount to one term per parameter |
| `CallArity.DefRead` | remote_cod/diag_script_parser/GenerateOtx/generatedCode.py:208-260 | a definition is read back with its name, parameters and results if and only if no two inputs have the same name |
| `CallArity.CallRead` | remote_cod/diag_script_parser/GenerateOtx/generatedCode.py:325-363 | a call is read back if and only if no argument is empty; with an empty one it is an error or has another number of arguments |
| `CallMeaning.CallPasses` | remote_cod/diag_script_parser/GenerateOtx/generatedCode.py:325-363 | a call passes its variables of kind in and both in their order and assigns those of kind out and both in theirs, with the step's result last |
| `CallMeaning.InputMeans` | remote_cod/diag_script_parser/GenerateOtx/generatedCode.py:365-393 | what Python reads in an argument: the truth value, the number or the object of the XML; an int is a Python literal if and only if it has no needless leading zero |
| `CallMeaning.OutputMeans` | remote_cod/diag_script_parser/GenerateOtx/generatedCode.py:395-411 | which variable a result is assigned to |
| `CallMeaning.BoundIs` | remote_cod/diag_script_parser/GenerateOtx/generatedCode.py:366-370 | a bound variable is the first local variable with its guid |
| `CallMeaning.DictRead` | remote_cod/diag_script_parser/GenerateOtx/generatedCode.py:341-348 | the dictionary in an argument is read back pair by pair |
| `CallMeaning.SetValueSets` | remote_cod/diag_script_parser/GenerateOtx/generatedCode.py:325-333 | the inputs of `SetValue` give each name the value of the last of them that has it |
| `CallMeaning.DefForwards` | remote_cod/diag_script_parser/GenerateOtx/generatedCode.py:208-260 | a definition hands its parameters to the library function of the step and returns what that assigns |
| `CallsServed.NamesIdentify` | remote_cod/diag_script_parser/GenerateOtx/generatedCode.py:247-255 | with step GUIDs as the schema demands them, a function name belongs to one step |
| `CallsServed.EmptyArg` | remote_cod/diag_script_parser/GenerateOtx/generatedCode.py:365-393 | which variables give an empty argument |
| `CallsServed.CallServed` | remote_cod/diag_script_parser/GenerateOtx/generatedCode.py:325-363 | a step's call is served by its definition if and only if no argument is empty |
| `CallsServed.WalkServed` | remote_cod/diag_script_parser/GenerateOtx/generatedCode.py:182-206 | the same for all calls of a step tree |
| `CallsServed.FileIsProgram` | remote_cod/diag_script_parser/GenerateOtx/generatedCode.py:146-206 | Python reads the file as the definitions followed by `main` |
| `CallsServed.CallsMatchDefinitions` | remote_cod/diag_script_parser/GenerateOtx/generatedCode.py:146-260 | every call in `main` is of exactly one function defined in front of it, with as many arguments as parameters and targets as results, if and only if no active call has an empty argument |
| `CallsServed.EmptyInputFails` | remote_cod/diag_script_parser/GenerateOtx/generatedCode.py:325-363 | a step with one empty string value passes nothing to a function with one parameter |
| `GeneratorWriter.Writer.ConditionsGenerated` | remote_cod/diag_script_parser/GenerateOtx/generatedCode.py:271-323 | for conditions in canonical order the loop appends one header line per active condition, each one tab further in, and returns the indentation behind them |
| `GeneratorWriter.Writer.StepsLabelGenerated` | remote_cod/diag_script_parser/GenerateOtx/generatedCode.py:182-206 | for such conditions the recursive generator appends the lines of the step tree's program and queues the calls of the active steps |
| `GeneratorWriter.Writer.BaseVariablesLabelGenerated` | remote_cod/diag_script_parser/GenerateOtx/generatedCode.py:325-363 | the call, with the dictionary passed by reference |
| `GeneratorWriter.Writer.CallProcedureStepGenerated` | remote_cod/diag_script_parser/GenerateOtx/generatedCode.py:413-422 | every called procedure is queued, the last one is written |
| `GeneratorWriter.Writer.GetStepMainFun` | remote_cod/diag_script_parser/GenerateOtx/generatedCode.py:146-169 | Python reads a fresh file as the definitions and then the step tree; what is left in the shared state |
| `Worklist.Driver.GenerateProcedure` | remote_cod/diag_script_parser/GenerateOtx/generatedCode.py:449-473 | it terminates on every acyclic call graph, leaves nothing pending, and has written for each procedure of the breadth-first unfolding, in that order |
| `Worklist.OncePerPath` | remote_cod/diag_script_parser/GenerateOtx/generatedCode.py:470-473 | the unfolding meets every call path exactly once, shorter paths first |
| `Worklist.GeneratedOncePerPath` | remote_cod/diag_script_parser/GenerateOtx/generatedCode.py:449-473 | each procedure is generated once per active call path from the root |
| `Worklist.NothingCleared` | remote_cod/diag_script_parser/GenerateOtx/generatedCode.py:449-473 | each file is generated with the local variables and `SetValue` pairs of every procedure generated before it |
| `Worklist.CallOpensFile` | remote_cod/diag_script_parser/GenerateOtx/generatedCode.py:413-422 | the statement of a procedure call names the file of the last procedure the step names, which is queued |
| `StepTree.DefinedIff` | remote_cod/diag_script_parser/GenerateOtx/generatedCode.py:173-180 | a definition is written for exactly the steps that have variables, active or not, at any depth |
| `StepTree.CallsIff` | remote_cod/diag_script_parser/GenerateOtx/generatedCode.py:182-206 | the procedures queued are exactly those that an input of a running `CallProcedureStep` names |
| `ResultFile.Tables.Save` | meapp/mainwindow.cpp:4223-4251 | the file text for the two tables, missing manual rows included |
| `ResultFile.Tables.Playback` | meapp/mainwindow.cpp:4286-4324 | the tables after reading any text |
| `ResultFile.RowRestored` | meapp/mainwindow.cpp:4234-4324 | a row without separators comes back if and only if it has no space at its outer ends and does not start like a heading |
| `ResultFile.SavedIsPlayed` | meapp/mainwindow.cpp:4223-4324 | a saved file shows its rows again if and only if every row is restorable |
| `ResultFile.FileLines` | meapp/mainwindow.cpp:4223-4251 | the lines of a saved file: three headings, the column line, and one line of six fields per row |
| `ResultFile.StepRowLost` | meapp/mainwindow.cpp:4305-4306 | a row whose first field is "Step" is lost |
| `ResultFile.SaveAndPlayBack` | meapp/mainwindow.cpp:4223-4324 | saving and playing back keeps the step table and gives the manual table one row per step |
| `EqualParams.LoopIsExpand` | remote_cod/diag_script_parser/odx2json/main.py:880-973 | for distinct parameters nothing that stayed is ever removed |
| `EqualParams.LoopKeepsTheSame` | remote_cod/diag_script_parser/odx2json/main.py:880-973 | for every list, equal parameters change where a table key reference stays, and nothing else: the same errors, the same parameters, the others in the same order, the same replacements |
| `EqualParams.EqualStaysBehind` | remote_cod/diag_script_parser/odx2json/main.py:965-966 | a list in which an equal reference moves one |
| `ParamSurvivors.SecondStays` | remote_cod/diag_script_parser/odx2json/main.py:920-966 | two neighbouring references: the second stays unexpanded |
| `ParamExpansion.FollowRequest` | remote_cod/diag_script_parser/odx2json/main.py:883-919 | the row references of the request, each looked up in the table that the one before left |
| `ParamLookups.LastRowDecides` | remote_cod/diag_script_parser/odx2json/main.py:893-916 | of the rows with the key in any table with the id, the last one that names a structure decides |
| `ParamLookups.OnlyTheFirst` | remote_cod/diag_script_parser/odx2json/main.py:883-919 | where no table is called like a row, only the first row reference of a request finds a structure |
| `ParamLookups.FirstRowNames` | remote_cod/diag_script_parser/odx2json/main.py:968-973 | the first row with the id gives its key, and from there the search goes on for that key |
| `ParamLookups.PlacedAre` | remote_cod/diag_script_parser/odx2json/main.py:921-965 | the parameters of a structure come in exactly if all positions are there, each at the sum of two positions and otherwise unchanged |
| `ParamLookups.OneParameter` | remote_cod/diag_script_parser/odx2json/main.py:880-973 | which of its references decides what happens to a parameter |
| `ParamExpansion.CollectAdded` | remote_cod/diag_script_parser/odx2json/main.py:921-965 | the parameters that replace a table key reference, or the missing position |
| `ParamExpansion.Response.ExpandAll` | remote_cod/diag_script_parser/odx2json/main.py:880-973 | the loop ends for every list, and leaves what stays followed by what was put in |
| `ParamSurvivors.ExpansionIs` | remote_cod/diag_script_parser/odx2json/main.py:880-973 | position by position, what the list becomes: the survivors in their old order, then the replacements in the order of the removed |
| `ParamSurvivors.EverySecondSurvives` | remote_cod/diag_script_parser/odx2json/main.py:920-966 | of neighbouring table key references the first, third, fifth and so on are removed |
| `ParamSurvivors.CompleteUnlessNeighbours` | remote_cod/diag_script_parser/odx2json/main.py:920-966 | no table key reference is left if and only if no two stood next to each other |
| `ParamSurvivors.AddedOne` | remote_cod/diag_script_parser/odx2json/main.py:921-965 | with one structure of the id its parameters come in, each at its offset behind the removed position |
| `ParamSurvivors.AddedNone` | remote_cod/diag_script_parser/odx2json/main.py:921-965 | with none, the parameter is removed and nothing comes in |

## Left out

goto patcher

- Rebuilding the code object around the patched bytes (goto.py:39-57) and the decorator.
- Bytecode.Parse: the exceptions for a truncated argument and for a name index out of range are one error, because the source's generator raises them lazily at the same call.
- The interpreter's bitwise or of an extended argument is an addition; the two agree because the extended part is a multiple of the argument range.
- GotoRun.PatchedRunIsIntended: assumes, as the patcher does, that control is at the start of a site or clear of all sites (not inside one, and the instruction fetched there, wherever it starts, does not reach into one), and that at a goto the runtime block stack is as deep as the static one; both are stated as a predicate on configurations.

procedure generator

- The annotation, import and variable definition lines (generatedCode.py:13-143) and the closing `if __name__` line; they hold no step logic. A file that is written twice is two texts here, not one appended file.
- The message box for steps with both variables and sub-steps, and the commented-out jumps.
- GeneratorRun.MainRunsTree: headers with expressions that are not decided by the last result alone, and all statements, have an arbitrary meaning.
- GeneratorMeaning.MainMeansTree, and with it GeneratorRun.MainRunsTree: leave out trees whose active conditions come in another order or write no header ("Always", LAS without id, unknown types); for those the code indents the children without a header above them, or glues a bare `True` to the next line (`ConditionGaps`).
- `Conditions`, `Steps` or `BaseVariables` that are missing and ones that are empty are told apart only where the code does something else for them; missing conditions and steps are empty sequences here.
- Exceptions for procedures that do not exist and for repeated steps without variables are preconditions (`Generable`).
- CallArity.CallRead: brackets and quotes are tracked as Python does for one-line strings; triple quotes are read as ordinary quotes.
- CallsServed.CallsMatchDefinitions: needs distinct input names, names that are Python names, and values that are closed expressions, since the code copies values into the text.
- Worklist.Driver.GenerateProcedure: cyclic call graphs, on which the code recurses until Python stops it.

serial line

- Opening, configuring, writing to and selecting on the port: a read is an event of a given sequence, a write has a given outcome.
- Printing, the other commands of the tester, and `readStatus`, whose reply is too short to be checked.

CAN messages

- Rounding in floating point: durations and speeds are reals.
- The setter calls are numbered in their order, and runs of them are loops; the valves of the 0x683 message and the wipers of the 0x443 message are numbered in the order of the messages.
- `Byte_get_byte`, which nothing calls, and the three `Reset` functions, which assign constants to struct fields.
- Signals.ExtractSignal: lengths above 32, for which the shift in C++ has no meaning.
- ValveRun.FramesAreOwn: the wiper threads that some valve tasks start are those of WiperRun; no other thread sends 0x683 during a run.
- WiperRun.FramesAreSnapshots: no other writer of the struct than the twelve threads, positive frequencies as the code divides by them, and delays as steps that do nothing.
- SendQueue.SentInOrder: drivers, the receive thread, the fallback to classic CAN frames and the send result are not part of this model; a message counts as sent when it is handed over. `CanComm` never clears its flag, so only the PCAN class closes.

result files and response expansion

- Directories, file names, the choice of the newest file and text encodings; the text of the file is given.
- ResultFile.SavedIsPlayed: a serial number, time or assembly name with a line break, which the input fields do not produce.
- A data dictionary with a single table, row or structure, which the XML reader gives as a dictionary instead of a list; positions that are not numbers; the negative responses, whose loop tests the same branches separately.
- Everything else: the Qt interface, the lidar service, flat signal tables, and the long fixed start sequence hold no property beyond single statements.
