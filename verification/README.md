# BHF: verified models of its protocols, logs, readers and reports

BHF is a fuzzing toolchain. An engine feeds inputs to instrumented targets over a framed pipe
protocol, reads coverage and comparison operands back from shared maps, mutates call programs, and
records findings, evidence and statistics. This project models the parts that carry invariants and
proves them for all inputs, all runs and all failure points. Where the repository has a writer and a
reader of the same format, in whatever languages, both are modelled and each is the other's partner.

One module per component, in the file of the same name:

| module | component |
|---|---|
| `Bits`, `Decimal` | bytes, little-endian words, bitwise operators, decimal numerals |
| `FramedProtocol` | the fork-server pipe protocol: engine, C driver, Python driver |
| `CmpLog`, `ValueProfile` | the two shared-memory logs: C writer, Rust reader |
| `ControlChannel` | the op-program control block: C harness, Rust mutator |
| `Cursor` | the argument decoders of the C and Python runtimes |
| `CoverageMap`, `CoveredLines` | hit counters, the covered-line sidecar and its checkpoints |
| `CargoTree` | the dependency-tree reader, and `cargo tree`'s de-duplicated listing |
| `SelectionMatrix` | the resumable image matrix |
| `VerifiedCopy` | the offline archive verifier with its verified copy |
| `ContentLength` | Content-Length framing and response matching of the editor client |
| `Wilson`, `TradeStudy`, `NearestRank` | the statistics of the benchmark and validation reports |
| `Actionability` | backfilling and refreshing actionability records |
| `MarkdownBlocks` | the block state machine of the documentation renderer |
| `StateGraph` | the projection of inferred state machines to integer graphs |

Code that updates state in place is modelled by classes, arrays and loops whose contracts tie them to
specification functions; the theorems are then about those functions.

## What the code does not do

Statements one would expect of the code but which fail for some inputs, each with its exact condition:

- The C driver runs exactly the frames it is sent if and only if none exceeds its 1 MiB buffer; a
  longer one leaves its surplus in the pipe (`FramedProtocol.CRunsFramesIff`). The C and Python
  drivers run the same inputs exactly on the streams `FramedProtocol.DriversAgreeIff` describes.
- Editing argument bytes never changes the program, except at input sizes from the bare control block
  up to the block plus its portfolio byte (`ControlChannel.ChannelsShareIff`; for what a generated harness
  then runs, `ControlChannel.ExecutionSharesIff`).
- The value-profile log is not free of repeats even within one process: a token of two or more bytes is
  appended again iff there is room and the last token that fell into its hash slot since has another hash
  (`ValueProfile.AppendedAgainIff`, with two such tokens in `ValueProfile.RepeatedTokenExample`).
- The covered-lines file does not accumulate. Processes replace each other's lines, and a process does not
  notice that its own are gone: what it had at its last checkpoint is in the file iff nobody else has
  written since, or the last who did wrote those lines too (`CoveredLines.SavedIff`, with a restart in
  `CoveredLines.LostByRestart` and the engine's own re-runs in `CoveredLines.LostByRerun`).
- Edge guards are not always numbered from 1: the one at which the 32-bit counter wraps gets id 0 and is
  never counted (`CoverageMap.CCoverage.GuardInit`).
- C and Python draw alike except for an empty range, where C still consumes bytes, and for lengths,
  where C draws eight bytes and Python four; the two then agree iff no byte, or at most four, are left
  (`Cursor.DrawsAgreeIff`).
- The renderer keeps source order if and only if no table row is directly followed by a code block
  that is closed again (`MarkdownBlocks.RendersInOrderIff`).
- A fresh actionability record loses its tier note on its first refresh if and only if prosthetics
  were used and there is a note (`Actionability.FirstRefresh`).
- A matrix run interrupted while it writes its very first checkpoint leaves a directory that neither a
  fresh start nor a resume accepts, and no other invocation does (`SelectionMatrix.EvidenceDir.Invoke`).
- Of the boundary values the comment of `bhf_ctrl_bounded` names (lines 104-106), min + 1 and max are never
  taken: a selector divisible by 4 is even, and so is its residue modulo 6 (`ControlChannel.BoundaryValues`).
- The comment block of `c_runtime/bhf_decode.h` (lines 55-68) speaks of one byte per slot; the code
  (lines 74-76 and 138) uses a stride of five, and the model follows the code.

## Model

| member | source | states |
|---|---|---|
| `FramedProtocol.EngineToDrivers` | crates/cli/src/fuzz.rs:5281-5296 | whatever inputs the engine sends, of any length, both drivers run exactly the first 2^20 bytes of each, in order |
| `FramedProtocol.CRunsFramesIff` | c_runtime/bhf_driver.c:511-522 | the C driver runs exactly the frames on the wire iff none is longer than its buffer; the Python driver always does |
| `FramedProtocol.OverlongFrame` | c_runtime/bhf_driver.c:514-522 | of a frame longer than the buffer C runs the first 2^20 bytes and then takes the rest of the body for frames, whatever it says |
| `FramedProtocol.CInputsOfFrames` | c_runtime/bhf_driver.c:514-522 | frames within the buffer are run first, in order, whatever bytes follow them |
| `FramedProtocol.PyInputsOfFrames` | python_runtime/bhf_driver.py:156-162 | the same of the Python loop, for every frame length a header can express |
| `FramedProtocol.TruncatedLastFrame` | c_runtime/bhf_driver.c:516-519 | a last frame cut at any byte is never run by C, while Python runs the part of the body that arrived |
| `FramedProtocol.DriversAgreeIff` | python_runtime/bhf_driver.py:128-162 | over every byte stream, the two drivers run the same inputs iff the stream is whole frames within the buffer followed by fewer than 4 bytes, or by an over-long header with exactly one buffer of body |
| `FramedProtocol.ReadN` | c_runtime/bhf_driver.c:461-470 | however the stream is split into short reads, success delivers exactly its next n bytes; refusal without a read error means fewer were left |
| `FramedProtocol.CReadFrame` | c_runtime/bhf_driver.c:515-518 | one turn delivers the next input the stream stands for, or finds that none is left |
| `FramedProtocol.CDriver` | c_runtime/bhf_driver.c:494-525 | with short reads, read and write errors and a target that may die on any input: the inputs run are a prefix of those sent, all of them at end of stream, and the control pipe holds one ready byte plus one byte per completed input |
| `FramedProtocol.PyReadExact` | python_runtime/bhf_driver.py:138-145 | returns the next n bytes, or all that is left at end of file |
| `FramedProtocol.PyReadFrame` | python_runtime/bhf_driver.py:157-160 | one turn delivers the next input, a body cut short by end of file included |
| `FramedProtocol.PyDriver` | python_runtime/bhf_driver.py:148-162 | the guarantee of the C driver, for the Python loop |
| `CmpLog.PushedAllIsPrefix` | c_runtime/bhf_driver.c:271-290 | any run of pushes from count 0 leaves the first 2048 pairs, clamped to 32 bytes, in order |
| `CmpLog.DecodeAfterPush` | c_runtime/bhf_driver.c:249-256 | a map that differs by one record and its count decodes to one more pair |
| `CmpLog.CmpMap.Push` | c_runtime/bhf_driver.c:271-290 | in place: the decoded log grows by the clamped pair, the armed word is untouched, a full map is left as it is |
| `CmpLog.CmpMap.PushAll` | c_runtime/bhf_driver.c:271-290 | a whole execution's pushes, from any log |
| `CmpLog.CmpMap.Armed` | c_runtime/bhf_driver.c:266-270 | true iff some byte of the armed word is set |
| `CmpLog.CmpMap.CmpInt` | c_runtime/bhf_driver.c:291-302 | when armed, pushes the little-endian bytes of an unequal pair of nonzero integers; otherwise changes nothing |
| `CmpLog.CmpMap.Arm` | crates/cli/src/fuzz.rs:2487-2499 | arming empties the log and touches only the header |
| `CmpLog.CmpMap.ReadLog` | crates/cli/src/fuzz.rs:2514-2552 | on any map content, in bounds, returns the decoded pairs with some content, each where it first occurs |
| `CmpLog.CmpMap.Capture` | crates/cli/src/fuzz.rs:4871-4879 | the engine's log of one execution is the first occurrences among what the C side pushed, and the map ends disarmed with its log intact |
| `CmpLog.FirstOccurrencesAre` | crates/cli/src/fuzz.rs:2524-2549 | de-duplication keeps exactly the nonempty pairs, once each |
| `CmpLog.FirstOccurrencesInOrder` | crates/cli/src/fuzz.rs:2524-2549 | pairs are kept in the order in which they first occurred |
| `CmpLog.CaptureIsComplete` | crates/cli/src/fuzz.rs:4867-4879 | a captured log holds each nonempty clamped pair among the first 2048 pushes exactly once, and nothing else |
| `ValueProfile.ParseOfEncode` | crates/cli/src/fuzz.rs:937-958 | the engine's parse of encoded tokens returns them, wherever they lie in the map |
| `ValueProfile.UniqueTokens` | c_runtime/bhf_driver.c:325-326 | a map holds at most one token sequence |
| `ValueProfile.TokenIff` | c_runtime/bhf_driver.c:338-342 | the operands that are logged are those of 1 to 8 bytes that denote a number other than 0 |
| `ValueProfile.ReadTokens` | crates/cli/src/fuzz.rs:937-958 | on a map holding tokens, returns exactly those; on any bytes, every token returned has length 1 to 8 |
| `ValueProfile.VpLog.Remember` | c_runtime/bhf_driver.c:343-353 | the dedup tables after an operand, and whether it was known |
| `ValueProfile.VpLog.Append` | c_runtime/bhf_driver.c:354-360 | in place: the map holds one more token, or is unchanged when there is no room |
| `ValueProfile.VpLog.Add` | c_runtime/bhf_driver.c:338-361 | one call takes the process from its old tables and tokens to the specified ones and keeps the map well formed |
| `ValueProfile.VpLog.Play` | c_runtime/bhf_driver.c:338-361 | a whole run of the process in place, with others appending to the map in between |
| `ValueProfile.LogOnlyGrows` | c_runtime/bhf_driver.c:354-360 | over every run, with other processes appending to the same map in between, tokens are only appended |
| `ValueProfile.AppendedTokens` | c_runtime/bhf_driver.c:339-360 | over every such run, every token a process appended is in the log, was offered, has 1 to 8 bytes and is not all zero, and the log stays within 65536 bytes |
| `ValueProfile.OneByteTokens` | c_runtime/bhf_driver.c:343-356 | over every such run, a fresh process appends a one-byte token at most once, and one that was offered is missing only if there is no room left for it |
| `ValueProfile.AddTwice` | c_runtime/bhf_driver.c:343-353 | offering an operand again right away changes nothing |
| `ValueProfile.SlotAfter` | c_runtime/bhf_driver.c:347-352 | over every run, a slot of the hash table remembers only the last longer token that fell into it |
| `ValueProfile.AppendedAgainIff` | c_runtime/bhf_driver.c:347-360 | a token of two or more bytes, offered to the same process again after any such run, is appended again iff there is room and the last token offered in that run that fell into its slot has another hash |
| `ValueProfile.LongTokensIff` | c_runtime/bhf_driver.c:347-360 | over every such run, a process has appended a token of two or more bytes iff it was offered at some point where the log had room and the token's slot did not hold an equal hash |
| `ValueProfile.RepeatedTokenExample` | c_runtime/bhf_driver.c:347-352 | two concrete tokens sharing a slot, offered in turn: the first is appended again |
| `ControlChannel.EngineReadsHarnessOps` | c_runtime/bhf_decode.h:98-140 | from every slot of every input the Rust mutator's layout and decoder read the operation the C harness runs |
| `ControlChannel.LayoutIsSlotAt` | crates/cli/src/fuzz.rs:4968-4983 | the engine's spans and the harness's slots are the same bytes, with or without a portfolio byte |
| `ControlChannel.SlotsDisjoint` | c_runtime/bhf_decode.h:74-76 | slots lie after the count byte, inside the input, and do not overlap |
| `ControlChannel.SlotValue` | c_runtime/bhf_decode.h:107-131 | a decoded value lies between its bounds, for every range whose size fits in 32 bits |
| `ControlChannel.SlotValueWraps` | c_runtime/bhf_decode.h:126-130 | outside the boundary selectors, counting the value word up by one counts the value up by one, from the least at 0 to the greatest and round |
| `ControlChannel.BoundaryValues` | c_runtime/bhf_decode.h:112-125 | of the boundary values a slot only ever takes the one below the greatest, for selectors that are 2 modulo 6, and else the least |
| `ControlChannel.CtrlOp` | c_runtime/bhf_decode.h:133-140 | a decoded operation is below the operation count |
| `ControlChannel.StepCount` | c_runtime/bhf_decode.h:92-96 | at most the maximum number of steps, and at most 255; which of them, in `StepCountWraps` |
| `ControlChannel.StepCountWraps` | c_runtime/bhf_decode.h:92-96 | counting the count byte up by one counts the steps up by one, from none at 0 to the maximum and round |
| `ControlChannel.ShortInputsRunOne` | crates/harness_gen/src/templates/sequence_harness.c.tera:593-599 | a generated harness runs exactly one operation on every input too short for the whole block, slot 0 if the bare block is incomplete, and else as many as the count byte says |
| `ControlChannel.ProgramFromTail` | c_runtime/bhf_decode.h:55-71 | the program is a function of the control tail: no argument bytes, of whatever content or length, change it |
| `ControlChannel.ArgumentsAreHeadIff` | c_runtime/bhf_decode.h:78-90 | the argument cursor covers exactly the bytes before the block, whatever the block holds, iff there is at least one |
| `ControlChannel.ChannelsShareIff` | c_runtime/bhf_decode.h:84-140 | two inputs that differ only in bytes the argument cursor covers can encode different programs iff there is a step to decode and the size is from the bare block to the block with its portfolio byte |
| `ControlChannel.ExecutionSharesIff` | crates/harness_gen/src/templates/sequence_harness.c.tera:593-634 | such inputs can make a generated harness, which runs slot 0 once when the block is incomplete, run different operations iff there is a step to decode and the size is that of the whole block, or is less but not below the bare block and there are two operations to choose from |
| `ControlChannel.ProgramRoundTrip` | c_runtime/bhf_decode.h:92-140 | every program within the bounds has an encoding that decodes back to it behind any argument bytes |
| `ControlChannel.RepresentableIff` | c_runtime/bhf_decode.h:92-140 | some input decodes to a program iff it has at most 255 and at most the maximum number of steps, all below the operation count |
| `ControlChannel.ChangeOpRetargets` | crates/fuzz_engine/builtin/src/mutator.rs:1646-1669 | retargeting a step always succeeds and changes that operation alone: same count, other operations and arguments |
| `ControlChannel.SwapStepsSwaps` | crates/fuzz_engine/builtin/src/mutator.rs:1736-1765 | swapping two steps swaps their operations and changes nothing else |
| `Cursor.PaddedIsWord` | python_runtime/bhf_decode.py:29-35 | slice-and-pad reads the integer the C byte loop gathers, also when the input runs out |
| `Cursor.DrawsAgreeIff` | python_runtime/bhf_decode.py:22-58 | a draw gives the same value and position in both languages iff an empty range is asked for only at the end of the input and a length only with at most four bytes left; plain integers always agree |
| `Cursor.TracesAgreeIff` | c_runtime/bhf_decode.h:142-177 | a whole sequence of draws agrees iff each draw agrees at the position where it happens |
| `Cursor.CTraceMonotone` | c_runtime/bhf_decode.h:142-177 | over every sequence of draws the position never moves back and never passes the end |
| `Cursor.IntegersRoundTrip` | c_runtime/bhf_decode.h:142-163 | every integer of each width is drawn from its own two's-complement bytes, whatever follows them |
| `Cursor.BoundedDraws` | c_runtime/bhf_decode.h:165-177 | a bounded draw lies between its bounds and goes round them with the word it reads |
| `Cursor.BoundedReaches` | c_runtime/bhf_decode.h:165-177 | every value between the bounds is drawn from some bytes, whatever follows them |
| `Cursor.CCursor.U8` | c_runtime/bhf_decode.h:142-145 | the next byte, or zero at the end |
| `Cursor.CCursor.Gather` | c_runtime/bhf_decode.h:150-152 | the or-and-shift loop computes the little-endian value of the bytes it consumed |
| `Cursor.CCursor.I32` | c_runtime/bhf_decode.h:147-154 | the two's-complement reading of that value, in the range of its width, from which it can be recovered |
| `Cursor.CCursor.I64` | c_runtime/bhf_decode.h:156-163 | the same for eight bytes |
| `Cursor.CCursor.BoundedI32` | c_runtime/bhf_decode.h:165-170 | the specified draw, between its bounds |
| `Cursor.CCursor.BoundedLength` | c_runtime/bhf_decode.h:172-177 | the specified draw, between its bounds |
| `Cursor.PyCursor.Take` | python_runtime/bhf_decode.py:29-35 | always n bytes: what was left, then zeros |
| `Cursor.PyCursor.U8` | python_runtime/bhf_decode.py:22-27 | the specified Python draw |
| `Cursor.PyCursor.I32` | python_runtime/bhf_decode.py:37-38 | the specified Python draw |
| `Cursor.PyCursor.I64` | python_runtime/bhf_decode.py:43-44 | the specified Python draw |
| `Cursor.PyCursor.BoundedI32` | python_runtime/bhf_decode.py:52-55 | the specified Python draw; an empty range consumes nothing |
| `Cursor.PyCursor.BoundedLength` | python_runtime/bhf_decode.py:57-58 | the specified Python draw, between its bounds |
| `CoverageMap.PyCoverage.Record` | python_runtime/bhf_cov.py:80-89 | exactly one cell, that of the edge, grows by one up to 255 |
| `CoverageMap.SuccessorsDiffer` | python_runtime/bhf_cov.py:85 | from one block, two steps hit the same cell iff they lead to the same block |
| `CoverageMap.DirectionsDiffer` | python_runtime/bhf_cov.py:85-89 | because of the shift, a step between two blocks and the step back share a cell iff the blocks are one |
| `CoverageMap.EntryCell` | python_runtime/bhf_cov.py:75-85 | the first line of an input hits the cell of its own block |
| `CoverageMap.CounterIs` | python_runtime/bhf_cov.py:86-88 | a counter is exact up to 255, never falls back, and adding twice is adding the sum |
| `CoverageMap.PyCoverage.RunInput` | python_runtime/bhf_driver.py:117-120 | every cell ends at min(255, before + hits), the hits depending only on this input's own line trace |
| `CoverageMap.PyCoverage.RunAll` | python_runtime/bhf_driver.py:156-162 | the same law for a whole campaign |
| `CoverageMap.OrderIrrelevant` | python_runtime/bhf_cov.py:75-89 | any reordering of the inputs gives the same total hits in every cell, hence the same map |
| `CoverageMap.CCoverage.TraceGuard` | c_runtime/bhf_driver.c:371-376 | one guard marks its cell and counts it up to 255; guard 0 does nothing |
| `CoverageMap.CCoverage.TraceGuards` | c_runtime/bhf_driver.c:371-376 | for every guard sequence, counts are min(255, before + hits) and presence is set exactly where hit |
| `CoverageMap.CCoverage.GuardInit` | c_runtime/bhf_driver.c:363-365 | an unnumbered table gets the next consecutive ids modulo 2^32, so a guard gets id 0, which is never counted, exactly where the 32-bit counter wraps; a numbered table is left alone |
| `CoveredLines.ClearLowestBit` | python_runtime/bhf_driver.py:170 | n & (n - 1) is zero iff n is a power of two |
| `CoveredLines.CheckpointIff` | python_runtime/bhf_driver.py:167-171 | the rule fires exactly at powers of two and multiples of 512 |
| `CoveredLines.CheckpointsAreDense` | python_runtime/bhf_driver.py:163-171 | after n inputs the last checkpoint c satisfies c <= n < 2c and n - c < 512 |
| `CoveredLines.LastGoodIsLast` | python_runtime/bhf_driver.py:166-171 | no later checkpoint is missed |
| `CoveredLines.Sidecar.NoteLine` | python_runtime/bhf_cov.py:34-35 | adds one line and keeps the invariant |
| `CoveredLines.Sidecar.SizeTest` | python_runtime/bhf_cov.py:43 | in every state, whatever others did to the file, comparing sizes decides whether the covered set differs from what this process wrote last, also after failed writes |
| `CoveredLines.Sidecar.Dump` | python_runtime/bhf_cov.py:38-52 | the file becomes the covered set unless the write fails or the set is what this process wrote last, in which case it stays as others left it |
| `CoveredLines.Sidecar.Act` | python_runtime/bhf_driver.py:161-189 | executing lines, completing an input with its checkpoint if one is due, and ending: each does to the process and to the file what the history functions say |
| `CoveredLines.Sidecar.RunInput` | python_runtime/bhf_driver.py:156-171 | one turn of the framed loop inside a history, with another process taking its turn after it |
| `CoveredLines.Sidecar.Campaign` | python_runtime/bhf_driver.py:155-177 | import and framed loop, with any failing writes and anything others leave in the file after each input: what the process has covered, what it wrote last, and what is in the file |
| `CoveredLines.Play` | crates/cli/src/fuzz.rs:2930-2975 | any number of processes over one file, taking turns in any way: the file is what the history says |
| `CoveredLines.FramedState` | python_runtime/bhf_driver.py:155-177 | in whatever company, what a framed process wrote last is what it had covered, imports included, at its last successful checkpoint |
| `CoveredLines.FileIs` | python_runtime/bhf_cov.py:45-50 | over every history, from the point of view of any process, the file is what somebody else wrote last since its own last write, else its own last write, else what was there before |
| `CoveredLines.KeptIff` | python_runtime/bhf_cov.py:41-50 | a process finds what it wrote last in the file iff nobody else has written since, or the last who did wrote those lines too |
| `CoveredLines.SavedIff` | python_runtime/bhf_driver.py:163-171 | over every history, after any number of inputs and during the next, with any failing writes: the lines up to a framed process's last successful checkpoint are in the file iff nobody else has written since, or the last who did wrote those lines too |
| `CoveredLines.SavedDensely` | python_runtime/bhf_driver.py:167-171 | with successful writes those are the lines of the first c of n inputs, with c <= n < 2c and n - c < 512 |
| `CoveredLines.NothingLostIff` | python_runtime/bhf_cov.py:26-31 | nothing any process wrote last is missing from the file iff that condition holds of every process |
| `CoveredLines.LostByRestart` | crates/cli/src/fuzz.rs:2938-2961 | a process started when another has died, after which the first one's line is gone |
| `CoveredLines.LostByRerun` | crates/cli/src/fuzz.rs:3071-3087 | a framed process whose inputs are each run again in a process of their own: after two more quiet inputs and a checkpoint that sees nothing new, the first input's line is gone |
| `CargoTree.ParseTree` | scripts/ci/rust-image-inventory.py:29-54 | accepts iff every line has exactly one matching package, no depth skips a level and something is listed; then returns exactly the packages, feature unions and edges the entries build |
| `CargoTree.IdentifiedIff` | scripts/ci/rust-image-inventory.py:39-43 | a line stands for a package, and for which, iff that package alone has its name and version |
| `CargoTree.RunPrinted` | scripts/ci/rust-image-inventory.py:45-51 | reading a printed forest at any depth of any state adds exactly that forest and keeps the path above it |
| `CargoTree.ReadsForest` | scripts/ci/rust-image-inventory.py:31-54 | every forest printed in preorder with depths is read back as its packages, features and parent-child pairs |
| `CargoTree.RunIffStepped` | scripts/ci/rust-image-inventory.py:45-47 | reading succeeds iff no line is more than one deeper than the one before |
| `CargoTree.BuildPrints` | scripts/ci/rust-image-inventory.py:45-51 | every such listing is the printing of a forest |
| `CargoTree.AcceptsIffForest` | scripts/ci/rust-image-inventory.py:35-54 | `parse_tree` accepts a listing iff every line is identified and some nonempty forest prints to it |
| `CargoTree.RunsIffForest` | scripts/ci/rust-image-inventory.py:45-51 | the stack machine gets through a listing iff some forest, possibly empty, prints to it |
| `CargoTree.ReadListing` | scripts/ci/rust-image-inventory.py:29-54 | on every listing of a nonempty forest `parse_tree` succeeds and its dictionaries are exactly the forest's packages, feature unions and parent-child pairs |
| `CargoTree.DedupEdges` | scripts/ci/rust-image-inventory.py:124-126 | a listing that prints repeated packages without children has every edge out of the packages it expands |
| `CargoTree.DedupCovers` | scripts/ci/rust-image-inventory.py:124-126 | it lists all roots and all dependencies of what it lists |
| `CargoTree.DedupMinimal` | scripts/ci/rust-image-inventory.py:124-126 | and nothing outside any dependency-closed set containing the roots |
| `CargoTree.ReadsReachableGraph` | scripts/ci/rust-image-inventory.py:29-54 | reading the de-duplicated listing of any dependency graph, cyclic or not, returns exactly the reachable packages, all their features and all edges between them |
| `SelectionMatrix.EvidenceDir.Persist` | scripts/ci/container-selection-matrix.py:21-27 | interrupted anywhere, the checkpoint is the old one or the new one, complete |
| `SelectionMatrix.EvidenceDir.ValidateRow` | scripts/ci/container-selection-matrix.py:45-50 | true iff every recorded evidence file is there with its recorded hash |
| `SelectionMatrix.EvidenceDir.ValidateResume` | scripts/ci/container-selection-matrix.py:30-51 | accepts iff schema, identity, platform, selections and progress match and every recorded name leads to a file inside the evidence directory with its recorded hash |
| `SelectionMatrix.StageNamesDiffer` | scripts/ci/container-selection-matrix.py:119-123 | different attempts have different directory names |
| `SelectionMatrix.EvidenceDir.ChooseStage` | scripts/ci/container-selection-matrix.py:119-124 | the attempt loop ends with the first directory name not in use, whatever earlier attempts left |
| `SelectionMatrix.FewAttempts` | scripts/ci/container-selection-matrix.py:121-123 | no more attempts are passed over than there are directories |
| `SelectionMatrix.EvidenceDir.RunSteps` | scripts/ci/container-selection-matrix.py:131-162 | the smoke and runtime steps run iff the build succeeded, and the automatic control iff also asked for |
| `SelectionMatrix.EvidenceDir.Judge` | scripts/ci/container-selection-matrix.py:133-169 | the status assigned step by step is `passed` iff every step that had to run ended with 0 and the automatic control, if asked for, left its results |
| `SelectionMatrix.EvidenceDir.RunSelection` | scripts/ci/container-selection-matrix.py:118-172 | stopping anywhere, existing directories are unchanged; a finished row records the hashes of exactly the files in its own new directory, and has passed iff its steps say so |
| `SelectionMatrix.SoundWithRow` | scripts/ci/container-selection-matrix.py:173-174 | appending such a row keeps a checkpoint sound: prefix, matching remainder, intact, separate and complete evidence |
| `SelectionMatrix.EvidenceDir.RunNext` | scripts/ci/container-selection-matrix.py:112-176 | one turn of the loop, interrupted or not, leaves a sound checkpoint that extends the one before |
| `SelectionMatrix.EvidenceDir.RunFrom` | scripts/ci/container-selection-matrix.py:111-177 | a run that is not stopped from outside finishes; a finished run has one row per selection, and returns 0 iff all passed |
| `SelectionMatrix.EvidenceDir.Invoke` | scripts/ci/container-selection-matrix.py:80-177 | exactly when an invocation is refused: unsupported platform, held lock, dirty checkout, nonempty directory, or a checkpoint that does not match; a refusal changes nothing; only a checkpoint of the same commit, source hash, platform and selections is continued; a checkpoint left by a fresh start records the call's own, so that the same call can resume it, and what could be resumed before still can; an accepted run not stopped from outside finishes; no recorded row or evidence is ever lost; and a directory becomes one that no invocation accepts iff a fresh start is interrupted after it begins to write and before its first checkpoint is in place |
| `SelectionMatrix.AnyHistory` | scripts/ci/container-selection-matrix.py:90-177 | after any number of invocations, interruptions and resumes the checkpoint on disk passes resume validation for its own source and extends every earlier one, evidence directories never change, and every fresh start that left a checkpoint can still be resumed by the same call |
| `VerifiedCopy.HashArchive` | scripts/verify-offline-dist.py:129-149 | on a source that may grow or fail while read, at most limit + 1 bytes are taken; success means the end was reached and digest, size and snapshot are those of the bytes taken; an archive is refused only for its size, and if no step fails only then |
| `VerifiedCopy.PublishSnapshot` | scripts/verify-offline-dist.py:163-180 | an existing destination is kept, every error says correctly whether the link was made, and if no step fails an existing destination is the only reason to fail |
| `VerifiedCopy.StagedWork` | scripts/verify-offline-dist.py:204-243 | on every path out of the staging block, `published` is set iff this run made the link, and then to the verified bytes; if no step fails, exactly the archives within the limit whose signature verifies pass |
| `VerifiedCopy.VerifyArchive` | scripts/verify-offline-dist.py:183-299 | with a failure possible at every step: success with a copy means the destination holds exactly the bytes, read to the end, whose digest was verified; an existing destination is never replaced; the reported publication state is the real one on every exit; a rejection means the signature check failed; and if no step fails and nobody else creates the destination, a run succeeds iff its arguments are good and the archive is within the limit and verifies |
| `Decimal.ParseOfPrint` | editors/gnatstudio/bhf_gnatstudio_core.py:186 | parsing a printed number gives it back |
| `ContentLength.HeaderRoundTrip` | editors/gnatstudio/bhf_gnatstudio_core.py:206-211 | the printed header line parses to its length, whatever headers follow, iff the numeral is within what `int` converts |
| `ContentLength.SpacedNumerals` | editors/gnatstudio/bhf_gnatstudio_core.py:208-211 | a length is understood with any white space around it and either sign |
| `ContentLength.LengthBehind` | editors/gnatstudio/bhf_gnatstudio_core.py:206-211 | other ASCII headers in front of it, in whatever number, do not matter |
| `ContentLength.FrameHeaders` | editors/gnatstudio/bhf_gnatstudio_core.py:190-204 | the header loop on an encoded frame stops exactly at its body |
| `ContentLength.HeadersOf` | editors/gnatstudio/bhf_gnatstudio_core.py:193-204 | any header lines that fit within the limit are read as they are, up to the blank line |
| `ContentLength.FrameRoundTripIff` | editors/gnatstudio/bhf_gnatstudio_core.py:184-223 | reading an encoded frame gives its message and leaves exactly what follows, iff the body is at most 64 MiB |
| `ContentLength.FramesRoundTrip` | editors/gnatstudio/bhf_gnatstudio_core.py:184-223 | any concatenation of such frames reads back as the message sequence, leaving the trailing bytes |
| `ContentLength.AnyHeadersRoundTrip` | editors/gnatstudio/bhf_gnatstudio_core.py:190-223 | a body is received behind any other ASCII headers around its Content-Length, as long as the block fits |
| `ContentLength.TruncatedFrame` | editors/gnatstudio/bhf_gnatstudio_core.py:195-219 | an encoded frame cut at any byte, header or body, is an error, never a message |
| `ContentLength.HeadersStep` | editors/gnatstudio/bhf_gnatstudio_core.py:193-204 | what the next line does to a header block that has begun, in each of the five cases |
| `ContentLength.Stream.ReadHeaders` | editors/gnatstudio/bhf_gnatstudio_core.py:191-204 | the loop computes the specified block or error and takes at most 8193 bytes of any stream |
| `ContentLength.Stream.FindLength` | editors/gnatstudio/bhf_gnatstudio_core.py:206-213 | the first Content-Length header decides; a non-ASCII line before it is an error |
| `ContentLength.Stream.ReadFrame` | editors/gnatstudio/bhf_gnatstudio_core.py:190-223 | on every byte stream, the specified message or error, with the stream left right after the frame |
| `ContentLength.Client.Request` | editors/gnatstudio/bhf_gnatstudio_core.py:93-145 | ids count up by one; a lost exchange or a transport error closes the client for good; a response is accepted iff its id equals the request's, as Python compares JSON numbers and truth values with integers, and it carries no error (section 5 of the JSON-RPC 2.0 specification) |
| `ContentLength.AcceptedIff` | editors/gnatstudio/bhf_gnatstudio_core.py:134-145 | a response that arrives is a result iff it carries the request's id and no error, and a remote error iff it carries the id and an error; with another id it is neither; `true` and `false` pass for 1 and 0 |
| `ContentLength.Client.RequestMany` | editors/gnatstudio/bhf_gnatstudio_core.py:93-145 | any number of requests, with any of them lost: the answers are exactly those the results below are about |
| `ContentLength.AnswersFollowFrames` | editors/gnatstudio/bhf_gnatstudio_core.py:117-145 | request i is answered from frame i |
| `ContentLength.AnswersPointwise` | editors/gnatstudio/bhf_gnatstudio_core.py:93-223 | against a daemon sending any frames, answer i is frame i judged by id i, end to end through encoding and reading, when no request is lost |
| `ContentLength.StrayFrameDisplaces` | editors/gnatstudio/bhf_gnatstudio_core.py:134-135 | one extra frame before answer j, end to end through encoding and reading: exactly the answers from j on fail with the wrong id, although all the right ones are sent |
| `Wilson.CenterMarginIsPlausibleSet` | benchmarks/engine-comparison/stats.py:75-80 | center minus to center plus margin is exactly the set of x with n(p - x)^2 <= z^2 x(1 - x) |
| `Wilson.PlausibleIsProbability` | benchmarks/engine-comparison/stats.py:85-86 | every such x is in [0, 1], so the clamps have nothing to do |
| `Wilson.IntervalIsPlausibleSet` | benchmarks/engine-comparison/stats.py:63-88 | for every valid count the interval is that set, the clamps change nothing, and 0 <= low <= rate <= high <= 1 |
| `Wilson.Mirrored` | benchmarks/engine-comparison/stats.py:75-88 | successes and failures give mirrored intervals |
| `Wilson.MoreTrialsNarrow` | benchmarks/engine-comparison/stats.py:75-88 | the same rate over at least as many trials never widens the interval |
| `Wilson.ExtremeCounts` | benchmarks/engine-comparison/stats.py:64-68 | no successes give a low end of exactly 0, only successes a high end of exactly 1 |
| `TradeStudy.EngineRowEligible` | benchmarks/engine-comparison/trade_study.py:798-841 | every row an engine run produces is classified, and eligible iff its class allows it |
| `TradeStudy.OutcomeMeans` | benchmarks/engine-comparison/trade_study.py:171-220 | of every measured run, which outcome it gets: confirmed iff a native crash came within the budget, late iff after it, reachable iff there was no timed crash but a native or corpus one, and so on for each outcome |
| `TradeStudy.EligibleIff` | benchmarks/engine-comparison/trade_study.py:171-250 | on every row a study can produce, in-budget, late and censored rows are eligible, build failures, timeouts, incomplete and unsupported rows are not, and a reachable row is iff the engine exited cleanly; an unsupported row claims no crash and no exit |
| `TradeStudy.ClassesPartition` | benchmarks/engine-comparison/trade_study.py:1011-1013 | the outcome classes partition the trials |
| `TradeStudy.SolvesAreValid` | benchmarks/engine-comparison/trade_study.py:1016-1021 | solved, late and censored rows are all among the valid campaigns, which exceed them by at most the reachable ones |
| `TradeStudy.SummaryIsConsistent` | benchmarks/engine-comparison/trade_study.py:1003-1058 | in every summary the classes sum to the trials and the interval is asked for within its domain |
| `TradeStudy.SummariesFor` | benchmarks/engine-comparison/trade_study.py:977-980 | exactly the engines with rows get an entry, the summary of their own rows |
| `TradeStudy.SelectsExactly` | benchmarks/engine-comparison/trade_study.py:978-984 | a table entry is about each row of its engine and target as often as it occurs, and about no other row |
| `TradeStudy.Aggregate` | benchmarks/engine-comparison/trade_study.py:973-1000 | the per-target and per-engine tables hold exactly those summaries |
| `TradeStudy.EngineTotals` | benchmarks/engine-comparison/trade_study.py:973-985 | for distinct targets, every per-engine total is the sum over the targets |
| `NearestRank.CountAtRank` | scripts/validation/legacy-breakage-matrix.py:634-636 | in a sorted list at least r values are within a cap iff the r-th is |
| `NearestRank.CoverageIffPercentile` | scripts/validation/legacy-breakage-matrix.py:631-659 | a cap covers at least the fraction p iff it reaches the nearest-rank percentile p |
| `NearestRank.PercentilesOrdered` | scripts/validation/legacy-breakage-matrix.py:668-688 | percentiles are ordered, are sample values, and the one at 1 is the maximum |
| `NearestRank.CapCurve` | scripts/validation/legacy-breakage-matrix.py:649-659 | one point per candidate cap with its count and coverage, never decreasing |
| `Actionability.ProstheticsFrom` | crates/actionability/src/lib.rs:768-816 | the four push loops collect exactly one item per name, in order; used iff some name is listed |
| `Actionability.VerdictMeans` | crates/actionability/src/lib.rs:307-357 | for every finding, exactly when a fresh record gets each of the five verdicts |
| `Actionability.EntryMeans` | crates/actionability/src/lib.rs:698-735 | a fresh record knows an entry iff one was stored or the target is named; a stored entry is kept and its flag wins over the finding's own |
| `Actionability.HighConfidenceIff` | crates/actionability/src/lib.rs:877-918 | exactly when a fresh record gets high confidence |
| `Actionability.LowConfidenceIff` | crates/actionability/src/lib.rs:877-918 | exactly when it gets low confidence, and so also when medium |
| `Actionability.Existing` | crates/actionability/src/lib.rs:638-687 | the field-by-field assignments compute the specified refresh, or the backfill when nothing readable is stored |
| `Actionability.ClaimsRealIff` | crates/actionability/src/lib.rs:638-687 | a record claims real reachability iff it was stored with that claim and no prosthetics are reported, or it is fresh and the finding has a failure at an entry not known to be internal, reproduced, with a source fix, and no prosthetics, block or harness artifact |
| `Actionability.RefreshIdempotent` | crates/actionability/src/lib.rs:643-682 | refreshing twice is refreshing once, for every record and finding |
| `Actionability.WriteBackSettles` | crates/actionability/src/lib.rs:638-696 | from the second write-back on nothing changes, in any mode |
| `Actionability.FirstRefresh` | crates/actionability/src/lib.rs:255-305 | a fresh record changes at most in its next steps, and is a fixed point iff not both prosthetics and a tier note are present |
| `Actionability.ProstheticsMeanLabOnly` | crates/actionability/src/lib.rs:670-681 | prosthetics in the finding or the record always end in LabOnly, after a refresh with one step per item and nothing else |
| `Actionability.RefreshOnlyFillsGaps` | crates/actionability/src/lib.rs:645-669 | however often a record is refreshed and however the finding changes in between, what the record once said is kept, apart from what prosthetics override |
| `Actionability.LabOnlyIsSticky` | crates/actionability/src/lib.rs:670-681 | over any sequence of changing findings: once one of them or the record reports prosthetics, every later record is LabOnly with one step per item last reported, even if later findings report none; until then verdict and steps do not change |
| `MarkdownBlocks.RenderedWellNested` | scripts/docs/build-site.py:346-476 | for every text, items occur only inside one open list, nothing else does, and every opened list is closed |
| `MarkdownBlocks.RendersGrammar` | scripts/docs/build-site.py:401-476 | from any state between constructs, whatever it has buffered, the rest of the output is that of a grammar that reads one construct at a time |
| `MarkdownBlocks.RenderedIsDocument` | scripts/docs/build-site.py:346-476 | for every text, the output of the line-by-line machine is the document that grammar reads |
| `MarkdownBlocks.DocumentFacts` | scripts/docs/build-site.py:401-466 | what headings, list items and code blocks the grammar's document has, from any line outside code on |
| `MarkdownBlocks.RendersKinds` | scripts/docs/build-site.py:401-476 | for every text, a line is rendered as a heading iff it is one outside code, as an item of an unordered or ordered list iff it is a bullet or numbered line outside code, and a code block is rendered iff its lines are exactly those between an opening fence and the next one or the end |
| `MarkdownBlocks.RendersEveryLineOnce` | scripts/docs/build-site.py:386-476 | for every text, every content line is shown exactly once and nothing else is, apart from rows dropped once each, all of them separators in second place of a table |
| `MarkdownBlocks.EveryLineInOneBlock` | scripts/docs/build-site.py:401-476 | every content line, separators included, belongs to exactly one block |
| `MarkdownBlocks.RendersInOrderIff` | scripts/docs/build-site.py:401-476 | the lines of the blocks, separators included, come in source order iff no table row is directly followed by a code block that is closed again |
| `MarkdownBlocks.OutOfOrderExample` | scripts/docs/build-site.py:404-439 | a three-line text that is rendered out of order |
| `MarkdownBlocks.Renderer.DoFlushTable` | scripts/docs/build-site.py:368-399 | a table iff the second buffered row is a separator, else a paragraph, and the buffer is empty |
| `MarkdownBlocks.Renderer.DoLine` | scripts/docs/build-site.py:401-466 | one turn of the loop is the specified step, whose meaning for every kind of line is in `RendersKinds` |
| `MarkdownBlocks.Renderer.Render` | scripts/docs/build-site.py:346-476 | the whole renderer computes the block sequence the theorems are about |
| `StateGraph.StepCorresponds` | crates/ada_state_machine/src/adapter.rs:127-136 | from a known state an entry moves the graph as the first matching transition moves the machine |
| `StateGraph.FollowsIff` | crates/ada_state_machine/src/adapter.rs:55-90 | along any entry sequence the graph follows the machine iff the machine never leaves its declared states; repeated names do not matter |
| `StateGraph.InitialCorresponds` | crates/ada_state_machine/src/adapter.rs:65 | the initial ids name the same state |
| `StateGraph.MachineAndGraphAgree` | crates/ada_state_machine/src/adapter.rs:55-90 | with known targets, machine and graph accept the same entry sequences from their initial states and reach corresponding states |
| `StateGraph.EdgesAreKnownTransitions` | crates/ada_state_machine/src/adapter.rs:67-80 | for every machine the edges are in bounds and read back as exactly the transitions between known states, in order |
| `StateGraph.EntryTargets` | crates/ada_state_machine/src/lib.rs:140-159 | every inferred transition leads to the state pushed with it |
| `StateGraph.OpenInitiallyIff` | crates/ada_state_machine/src/lib.rs:134-143 | an entry is open initially iff it is declared without a barrier |
| `StateGraph.InferredMoves` | crates/ada_state_machine/src/lib.rs:144-159 | an inferred machine moves from its initial state on each declared entry to the state named after it, and nowhere else |
| `StateGraph.InferredGraphAccepts` | crates/ada_state_machine/src/lib.rs:115-167 | so from its initial state the graph accepts exactly the declared entries, and each leads to the state named after it, where all are open |
| `StateGraph.InferredGraphsFollow` | crates/ada_state_machine/src/lib.rs:115-167 | the graph of every inferred machine follows it along every entry sequence |

## Left out

- Files, descriptors, shared mappings, signals, processes, Docker, git and OpenSSL: steps that succeed, fail or return short reads. A map that could not be opened, where the sources do nothing, is not modelled.
- SHA-256 and Ed25519: `sha` and `verifies` are arbitrary functions. JSON, regular expressions and TOML: `dumps` and `loads` are functions, lines arrive classified or split.
- Floating-point rounding, `round`, the bootstrap and the quantiles: statistics are over the reals, with the square root as a parameter.
- Byte order: the native-endian words of the C driver and of the engine's token reader are taken as little-endian.
- Concurrency in time: pushes, additions and dumps happen one after the other, in any order, also those of different processes.
- CoveredLines.Sidecar.Campaign: the sidecar is its set of lines; the sorted text format is not modelled, nor are two writes that overlap in time.
- ControlChannel.ChangeOpRetargets: only the five-byte form of the bounded encoder, which every slot takes; step insertion, removal and the random choices of the mutator are not modelled.
- Cursor.DrawsAgreeIff: only draws that are defined in C (no signed overflow in the bounds, no zero divisor); text, string and float decoders are not modelled.
- SelectionMatrix.EvidenceDir.ValidateResume: where a recorded name leads, by path resolution and links, is given with the name.
- ContentLength.Stream.ReadFrame: the limit on digits that `int` converts is the interpreter's default of 4300.
- ContentLength.Client.Request: the reader thread and the clock are not modelled; a request that times out is one of the lost ones.
- MarkdownBlocks.RendersEveryLineOnce: blocks carry line numbers; inline rendering, escaping, slugs and the code language are not modelled.
- Actionability.Existing: the extractors that read a raw finding, and the bug-class, CWE and explanation tables, are arbitrary facts of the finding.
- TradeStudy.SummaryIsConsistent: the counts only; time, coverage and throughput distributions are not modelled.
- The component list of `generate` in the image inventory, the other near-copy drivers (C#, JavaScript, Ruby, PHP), the comparison-progress map, `fidelity.rs` and the release gates would only add easy members.
