# dx9mt, modelled in Dafny

dx9mt runs Direct3D 9 programs on Metal. A frontend implements the D3D9 interfaces, copies what
each draw needs into a rotating upload arena and sends packets; a backend turns packets into the
commands of a frame and publishes them in a shared-memory region; a viewer process copies the
region, translates D3D9 shader bytecode to the Metal Shading Language, and replays the commands
in render passes. This project models those parts and proves what they promise each other.

Check it with `dafny verify dfyconfig.toml`.

## How it is organised

**Shaders.** `ShaderIr` holds the parsed program. `ShaderTokens` says which tokens have which
fields, and `ShaderFormat` which dword streams are bytecode and for what items, whatever the bits
that the parser ignores; `ShaderParser` (a class with the source's cursor loop, proved equal to
the pure `ParseSpec`) accepts exactly those, and `ShaderUsage` says what its register summary
holds. `ShaderEncoding` has an encoder for the format and the
frontend's length scan, `ShaderOverruns` says when the parser reads past its buffer.
`ShaderSemantics` runs the flat instruction list as a machine with a stack of open loops;
`ShaderBlocks` shows that machine equal to the meaning of a block tree. `Msl` is the part of
Metal that translated shaders use, with width-typed expressions: ill-typed code has no meaning.
`MslEmitter` is the emitter, `MslBlocks` reads emitted lines back as blocks. `ShaderDeclarations`
gives the variables that are declared and `ShaderScope` those that are named: a function whose
lines name anything else, or that declares a name twice, does not compile and so does not run.
`ShaderInterface` gives the fields of its parameters, each with the width its declaration says.
`ShaderOperands`, `ShaderInstructions`, `ShaderAssignments`, `ShaderPreservation` prove that the
emitted function means what the bytecode means exactly when it compiles, and `ShaderStart` takes
that from the values a draw gives to the function's end. Scalars are reals;
division, rsqrt, exp2, log2, pow, sin and cos are arbitrary functions, the same on both sides.

**Transport.** `UploadArena` (three slots, bump allocation, lifetimes), `Packets` and `Replay`
(the packet loop and the frame state), `ReplayProperties`, `ReplayCounters`, `ReplayHash` and
`HashedFields`, `FrameLayout`, `EntryFields` and `FrameAssembly` (the region, the named fields of
its entries, its publisher and the stores it makes), `SnapshotProtocol` (the
sequence-number protocol at the grain of single stores and loads) and `Publishing` (the publisher
as its writer), `Frontend`, `EndToEnd` and `Retention` (all of it as one system), `CallHistory`
(what the calls ask for, told without packets, refs or memory), `ViewerReading` (what a viewer
reads in a frame, against that history), `Fidelity` (the two ends joined), `StaleDraw` (a run that loses a draw's constants), and `FrontendDevice` (the device as an object
whose calls are steps of that system).

**Caches and surfaces.** `SurfaceCopy`, `TextureCache`, `MipLevels`, `RefCounts`, `PassRouting` and
`EncodedCommands` (which commands are encoded, and what a copy reads).

Objects that the source updates in place are classes here; every method of theirs is proved
against a function of the old state, and the theorems are about those functions.

Run-level assumptions, stated where they are used: one device and one bridge initialisation per
run; frame ids, sequence numbers and texture generations do not wrap; loads and stores are
sequentially consistent; object ids are not reused.

## Where code and comments disagree

The model follows the code. `dx9mt/include/dx9mt/metal_ipc.h:11` calls the region 16 MB, line 24
makes it 256 MiB. `dx9mt/src/frontend/d3d9_device.c:610` calls an arena slot 1 MB,
`dx9mt/include/dx9mt/upload_arena.h:8` makes it 256 MiB.

## Where the code does not do what one would expect

Each of these is proved with its exact condition or a concrete input.

- An operand is built from the first channels of its swizzle, however many the write mask has, so
  a masked instruction keeps its D3D9 meaning only if each written channel's source component is
  the one its rank picks (`ShaderPreservation.ArithmeticExact`).
- A translated function can name a variable that it does not declare: a color output above the last
  one written, an integer or boolean constant without a definition, a temporary that only flow
  control reads; and it can declare a field twice. It then never compiles
  (`ShaderPreservation.TranslatedBytecode`, `ShaderPreservation.UndeclaredColor`).
- The number of color outputs follows the one written last, so an earlier, higher one stays
  undeclared (`ShaderDeclarations.ColorOutputDeclared`, `ShaderDeclarations.ColorOutputOrderMatters`).
- An input that is declared a second time, under a usage the vertex descriptor does not have, is
  read with the second declaration's width although its field has the first's
  (`ShaderOperands.AvailableExactly`, `ShaderStart.RedeclaredInput`).
- SINCOS loses its saturation (`ShaderAssignments.SaturatedSinCosExactly`).
- The parser reads past its buffer when a relative operand takes the last token that the length
  check counted (`ShaderOverruns.OverrunsExactly`, `ShaderOverruns.ScannedBlobOverruns`).
- The shader length scan stops early at a dword inside an instruction that looks like END
  (`ShaderEncoding.ScanAgreesWithParser`, `ShaderEncoding.ScanStopsEarly`).
- Without BeginScene between presents the arena retakes bytes that stored draws still need
  (`Retention.StepKeepsInvExactly`, `StaleDraw.DisciplineNeeded`, `StaleDraw.StaleRunPossible`).
- The room check of the bulk region and the guard of the float constants wrap at 32 bits
  (`FrameLayout.RoomCheckExactly`, `FrontendDevice.ConstantGuardExactly`), as does the product of a
  scaled copy (`SurfaceCopy.NearestExactly`).
- A pass is reused by render-target id, so a draw whose description changed the id's texture is
  encoded into the old one (`PassRouting.ReusedPassIsRight`, `PassRouting.StaleTarget`); a target
  whose first pass was refused is loaded without having been cleared
  (`PassRouting.RefusedTargetIsLoaded`).
- The frontend counts four bytes per A16B16G16R16F pixel and the viewer eight
  (`MipLevels.ViewerReadsUpload`).

## Model

| member | source | states |
|---|---|---|
| ShaderTokens.DstRoundTrip | dx9mt/src/tools/d3d9_shader_parse.c:18-28 | a destination token decodes to a register if and only if its fields are that register's, whatever its other bits; the relative bit is read beside it |
| ShaderTokens.SrcRoundTrip | dx9mt/src/tools/d3d9_shader_parse.c:30-43 | a source token decodes to a register if and only if its fields are that register's, whatever its other bits |
| ShaderTokens.RelativeRoundTrip | dx9mt/src/tools/d3d9_shader_parse.c:581-591 | the token after a relative operand decodes to the lane it encodes |
| ShaderTokens.DclRoundTrip | dx9mt/src/tools/d3d9_shader_parse.c:307-359 | the two tokens of a declaration decode to an entry if and only if usage, index, register, mask and sampler type stand in their fields, whatever the other bits, bit 31 among them |
| ShaderParser.Parser.Parse | dx9mt/src/tools/d3d9_shader_parse.c:247-610 | the cursor loop, with its table updates, usage tracking and every error exit, returns exactly ParseSpec of the dwords; a read past the buffer is an outcome of its own, which no encoding has |
| ShaderParser.Parser.FindOrAllocDef | dx9mt/src/tools/d3d9_shader_parse.c:232-245 | the definition table gets the entry in place of the one for the same register, or at its end, or is full |
| ShaderParser.Parser.TrackUsage | dx9mt/src/tools/d3d9_shader_parse.c:131-226 | tracking a register updates exactly the usage field of its kind, or refuses a number beyond the limit |
| ShaderParser.Parser.Declare | dx9mt/src/tools/d3d9_shader_parse.c:307-359 | a declaration is appended and tracked, or refused when the table is full |
| ShaderParser.Parser.ParseEntry | dx9mt/src/tools/d3d9_shader_parse.c:276-610 | one entry of the stream, of any kind, is the specification's step from that position |
| ShaderParser.Parser.ParseRegular | dx9mt/src/tools/d3d9_shader_parse.c:499-610 | an instruction with its token-count check, operands and the table limit |
| ShaderFormat.ParseWritten | dx9mt/src/tools/d3d9_shader_parse.c:247-610 | a stream that is bytecode for some items parses to what the items mean, or is rejected exactly when their meaning overflows a table |
| ShaderFormat.ParsesExactlyTheFormat | dx9mt/src/tools/d3d9_shader_parse.c:247-610 | a dword stream parses if and only if it is bytecode for some items that fit the tables, and then to what any such items mean |
| ShaderFormat.ParseReturnsProgram | dx9mt/src/tools/d3d9_shader_parse.c:247-610 | of every stream that parses: instructions and declarations in order, the version, and a definition table equal to the last-write-wins map of the definitions it met |
| ShaderFormat.CommentsAndTailIgnored | dx9mt/src/tools/d3d9_shader_parse.c:276-298 | two streams that differ only in comment blocks, ignored bits and dwords after END parse alike |
| ShaderUsage.TakenExactly | dx9mt/src/tools/d3d9_shader_parse.c:131-226 | an item is taken if and only if its registers have numbers below the limit of their kind and its table has room |
| ShaderUsage.SummaryIsExact | dx9mt/src/tools/d3d9_shader_parse.c:131-226 | of every stream that parses: inputs, outputs and samplers are exactly the registers used or declared, attributes, fog and depth exactly those written, position what is written or declared, and the largest temporary and constant those used |
| ShaderOverruns.OverrunsExactly | dx9mt/src/tools/d3d9_shader_parse.c:499-597 | the parser reads past its buffer if and only if, after items that fit, an instruction that passes the length check loses a counted token to a relative operand and the buffer ends there |
| ShaderOverruns.NoRelativeNoOverrun | dx9mt/src/tools/d3d9_shader_parse.c:546-597 | without a dword that has the relative bit set, no parse reads past the buffer |
| ShaderOverruns.ScannedBlobOverruns | dx9mt/src/tools/d3d9_shader_parse.c:578-597 | a shader that the frontend's scan delivers whole and whose parse reads past its end |
| ShaderEncoding.EncodingIsBytecode | dx9mt/src/tools/d3d9_shader_parse.c:276-610 | every list of well-formed items has bytecode: the canonical encoding, with any dwords after it |
| ShaderEncoding.ParseEncoding | dx9mt/src/tools/d3d9_shader_parse.c:247-610 | for all well-formed items and all trailing data, parsing their encoding gives what the items mean, or is rejected exactly when their meaning overflows a table |
| ShaderEncoding.ShaderDwordCount | dx9mt/src/frontend/d3d9_device.c:985-1011 | the scan returns the position after the first END dword, or the limit |
| ShaderEncoding.ScanAgreesWithParser | dx9mt/src/frontend/d3d9_device.c:985-1011 | for every bytecode, scan and parser agree on its length if and only if no dword before its end equals END and it fits the limit |
| ShaderEncoding.ScanStopsEarly | dx9mt/src/frontend/d3d9_device.c:985-1011 | a shader of eight dwords, one of them a DEFI word equal to END: it parses, the scan gives four, and what the scan gives is rejected |
| ShaderBlocks.BalancedIffTree | dx9mt/src/tools/d3d9_shader_emit_msl.c:771-817 | an instruction list has balanced IF/ELSE/ENDIF and REP/ENDREP with breaks inside loops if and only if it is a block tree written out, and the tree is unique |
| ShaderBlocks.FlatMachineFollowsTree | dx9mt/src/tools/d3d9_shader_emit_msl.c:771-817 | the flat machine, jumping between matching instructions, halts at the end with the registers the block tree gives |
| MslEmitter.Emitter.EmitInstructions | dx9mt/src/tools/d3d9_shader_emit_msl.c:389-883 | the emitter appends, for each instruction in order, the specified line |
| MslEmitter.Emitter.EmitInstruction | dx9mt/src/tools/d3d9_shader_emit_msl.c:389-883 | one instruction gives its specified lines |
| MslEmitter.Emitter.Fit | dx9mt/src/tools/d3d9_shader_emit_msl.c:826-883 | splatting a scalar or cutting a wider vector to the destination's width |
| MslEmitter.Emitter.SrcComponentExpr | dx9mt/src/tools/d3d9_shader_emit_msl.c:260-317 | one component with its modifier, for the width the register has |
| MslEmitter.Emitter.SrcExprWidth | dx9mt/src/tools/d3d9_shader_emit_msl.c:319-344 | an operand of a width, from the first channels of the swizzle |
| ShaderInterface.FieldWidth | dx9mt/src/tools/d3d9_shader_emit_msl.c:953-975 | without repeated names, the field of an input has as many components as its variable is said to have |
| ShaderOperands.AvailableExactly | dx9mt/src/tools/d3d9_shader_emit_msl.c:218-234 | the width at which an input is read is that of its variable if and only if the input's last declaration and its field's select as many channels |
| ShaderOperands.InputLanes | dx9mt/src/tools/d3d9_shader_emit_msl.c:939-948 | in a vertex shader that width is the number of channels which the last declaration of the input selects, or four when it selects none |
| ShaderOperands.NamesAreDistinct | dx9mt/src/tools/d3d9_shader_emit_msl.c:65-140 | two registers get one Metal name if and only if they are one register |
| ShaderOperands.SrcComponentMeans | dx9mt/src/tools/d3d9_shader_emit_msl.c:260-317 | the emitted component evaluates to the D3D9 source channel with swizzle and modifier, and is ill-typed exactly when the predicate says so |
| ShaderOperands.OperandMeans | dx9mt/src/tools/d3d9_shader_emit_msl.c:319-349 | an operand of width w holds source channels 0 to w-1, whatever the write mask |
| ShaderInstructions.CombineMeans | dx9mt/src/tools/d3d9_shader_emit_msl.c:423-575 | the expression of each pointwise operation computes that operation in every component |
| ShaderInstructions.AssignedValue | dx9mt/src/tools/d3d9_shader_emit_msl.c:423-638 | the right-hand side of an arithmetic instruction is well typed exactly under the stated condition, and then holds the instruction's channels packed from channel 0 |
| ShaderAssignments.SinCosRuns | dx9mt/src/tools/d3d9_shader_emit_msl.c:583-600 | the channel-after-channel lines of SINCOS leave what the instruction leaves, when the destination does not overwrite the component still to be read |
| ShaderAssignments.SaturatedSinCosExactly | dx9mt/src/tools/d3d9_shader_emit_msl.c:583-600 | the lines of a saturated SINCOS leave what the instruction leaves if and only if the values it writes lie between 0 and 1 |
| ShaderAssignments.InstructionRuns | dx9mt/src/tools/d3d9_shader_emit_msl.c:389-638 | each translatable instruction's lines run without a type error and leave masks, saturation and unwritten channels as the instruction does |
| MslBlocks.PrintReads | dx9mt/src/tools/d3d9_shader_emit_msl.c:771-817 | emitted lines read back as exactly the block they were written from |
| ShaderPreservation.EmittedIsPrinted | dx9mt/src/tools/d3d9_shader_emit_msl.c:771-817 | emitting the instructions of a tree gives the tree's Metal block, well bracketed |
| ShaderPreservation.TranslationPreservesMeaning | dx9mt/src/tools/d3d9_shader_emit_msl.c:389-883 | for every balanced program within the channel and typing conditions whose named variables are all declared, once, and every matching start: the emitted function runs, terminates, and ends with Metal variables equal to the registers the bytecode ends with |
| ShaderPreservation.UncompilableNeverRuns | dx9mt/src/tools/d3d9_shader_emit_msl.c:1008-1045 | a program with a named variable that is not declared, or a name declared twice, has no emitted function that runs |
| ShaderPreservation.TranslatedBytecode | dx9mt/src/tools/d3d9_shader_emit_msl.c:389-883 | for every bytecode that parses, within the channel and typing conditions: the emitted function ends with the bytecode's registers if no interface field repeats and each register that an instruction names has a variable by the parse, and never runs otherwise |
| ShaderPreservation.UndeclaredColor | dx9mt/src/tools/d3d9_shader_emit_msl.c:1016-1045 | a shader that parses, is balanced and within the conditions, and whose translation never runs |
| ShaderPreservation.ArithmeticExact | dx9mt/src/tools/d3d9_shader_emit_msl.c:423-575 | for MOV, ABS, FRC, ADD, SUB, MUL, MIN and MAX on plain distinct registers, the translation agrees from every state if and only if every written channel's source component is the one its rank picks |
| ShaderStart.StartsMatch | dx9mt/src/tools/d3d9_shader_emit_msl.c:1008-1045 | for every bytecode that parses and all values a draw gives: the declared variables start from what the registers start from, constants from their last definitions |
| ShaderStart.TranslatedFromStart | dx9mt/src/tools/d3d9_shader_emit_msl.c:389-1090 | for every bytecode that parses, within the conditions, and all values a draw gives: the emitted function runs from its declarations to its end and leaves what the program leaves, unless it does not compile, when it never runs |
| ShaderStart.StartExists | dx9mt/src/tools/d3d9_shader_emit_msl.c:1008-1045 | every bytecode that parses has such a start, for all values a draw gives |
| ShaderStart.RedeclaredInput | dx9mt/src/tools/d3d9_shader_emit_msl.c:939-972 | a vertex shader that parses, whose input v0 has four components in its field and whose operands read v0.y as 0.0 |
| ShaderScope.CompilesExactly | dx9mt/src/tools/d3d9_shader_emit_msl.c:949-1045 | an emitted function compiles if and only if its program's interface repeats no name and every register an instruction mentions has a variable |
| ShaderScope.VariablesExactly | dx9mt/src/tools/d3d9_shader_emit_msl.c:65-140 | a register's Metal name is visible if and only if its kind's declaration, definition, interface field or buffer gives it a variable |
| ShaderScope.OnlyFieldsRepeat | dx9mt/src/tools/d3d9_shader_emit_msl.c:949-1045 | with distinct definitions, a name is declared twice only if two interface fields are the same |
| ShaderScope.CompilesForParsed | dx9mt/src/tools/d3d9_shader_parse.c:131-226 | for every bytecode that parses, compiling comes down to the fields and to the registers that the parser's usage tracking does not cover |
| ShaderDeclarations.DeclareVariables | dx9mt/src/tools/d3d9_shader_emit_msl.c:1016-1045 | the declaration loops produce the temporaries, color outputs and definitions in order, each inline constant from an entry of the table |
| ShaderDeclarations.NamedVariablesAreDeclared | dx9mt/src/tools/d3d9_shader_emit_msl.c:1016-1045 | for every bytecode that parses, each temporary named by a non-flow instruction is declared and each named inline constant is declared exactly once |
| ShaderDeclarations.TableIsLastWrites | dx9mt/src/tools/d3d9_shader_parse.c:232-440 | after every successful parse the definition table has distinct keys and equals the last-write-wins map of the definitions in the stream |
| ShaderDeclarations.DeclaredWithLastValue | dx9mt/src/tools/d3d9_shader_parse.c:361-440 | for every bytecode that parses, the declaration of a float, integer or boolean constant starts from the words of the last definition of its register |
| ShaderDeclarations.ColorOutputDeclared | dx9mt/src/tools/d3d9_shader_parse.c:215-217 | oC# is declared if and only if its number does not exceed the last one written (oC0 always) |
| ShaderDeclarations.ColorOutputOrderMatters | dx9mt/src/tools/d3d9_shader_parse.c:215-217 | a shader that writes oC1 and then oC0, and nothing else, parses and never declares oC1 |
| FnvHash.MixInjective | dx9mt/src/backend/backend_bridge_stub.c:258-262 | a mixing step is injective in the hash and in the word |
| FnvHash.BytecodeHash | dx9mt/src/tools/d3d9_shader_parse.c:616-623 | the loop over the dwords computes the fold of the mixing step |
| FnvHash.OneWordChangesHash | dx9mt/src/tools/d3d9_shader_parse.c:616-623 | two equally long bytecodes that differ in one dword never share a hash |
| FnvHash.FoldInjectiveInStart | dx9mt/src/backend/backend_bridge_stub.c:258-262 | equal words folded from different hashes stay different |
| FnvHash.ComputeFrameHash | dx9mt/src/backend/backend_bridge_stub.c:379-397 | the loop over stored commands computes the frame hash |
| FnvHash.OneCommandWordChangesFrameHash | dx9mt/src/backend/backend_bridge_stub.c:379-397 | changing one hashed word of one command always changes the frame hash |
| ReplayHash.ReplayHashDiffers | dx9mt/src/backend/backend_bridge_stub.c:277-397 | frames with equal counters that differ in one hashed word of one stored command never share a replay hash |
| HashedFields.FieldTellsFramesApart | dx9mt/src/backend/backend_bridge_stub.c:277-397 | frames that differ in one named field of one stored draw have the same replay hash if and only if the field is of the viewport or scissor or is the index format |
| UploadArena.Uploads.UploadCopy | dx9mt/src/frontend/d3d9_device.c:584-634 | a copy either fails and gives an empty ref, or writes its bytes at the aligned cursor of the frame's slot and advances it |
| UploadArena.Uploads.BeginFrame | dx9mt/src/frontend/d3d9_device.c:569-582 | a new frame id takes the slot of its residue and an empty cursor; the same id changes nothing |
| UploadArena.FailedCopy | dx9mt/src/frontend/d3d9_device.c:584-634 | a copy that does not succeed changes nothing at all |
| UploadArena.FreshIssue | dx9mt/src/frontend/d3d9_device.c:584-634 | a copy that succeeds gives an aligned ref inside the slot that holds its bytes |
| UploadArena.PlacedResolves | dx9mt/src/frontend/d3d9_device.c:99-113 | an issued ref resolves inside the arena |
| UploadArena.CopyKeeps | dx9mt/src/frontend/d3d9_device.c:584-634 | a copy disturbs no earlier ref when it fails, is in the same frame, or is in a frame of another slot |
| UploadArena.IssueLifetime | dx9mt/src/frontend/d3d9_device.c:99-113 | in every run, each ref is aligned and in its slot and resolves to its bytes until the first successful copy in a later frame of the same slot |
| UploadArena.SameFrameDisjoint | dx9mt/src/frontend/d3d9_device.c:565-634 | refs of one frame do not overlap, and follow each other |
| UploadArena.RetakenSlot | dx9mt/src/frontend/d3d9_device.c:569-582 | the lifetime ends there: the first copy three frames later replaces the bytes |
| Replay.Bridge.SubmitPackets | dx9mt/src/backend/backend_bridge_stub.c:985-1174 | the packet loop terminates, reads only inside the buffer, and its return value and state are those of the specification |
| Replay.Bridge.HandlePacket | dx9mt/src/backend/backend_bridge_stub.c:1030-1165 | each kind of packet acts or is refused as the specification's step |
| Replay.Bridge.ValidateDraw | dx9mt/src/backend/backend_bridge_stub.c:1030-1100 | a draw is acceptable exactly with its state ids, both constant refs in range and all others empty or in range |
| Replay.Bridge.ValidateRef | dx9mt/src/backend/backend_bridge_stub.c:623-657 | a ref is in range exactly when it is not empty and lies inside a slot of the arena |
| ReplayProperties.SubmitPartitions | dx9mt/src/backend/backend_bridge_stub.c:985-1174 | success if and only if the buffer partitions into accepted packets; the state folds the packet step over the accepted prefix, plus the number and count of an offending packet that passed the sequence check |
| ReplayProperties.SubmitFolds | dx9mt/src/backend/backend_bridge_stub.c:985-1174 | a buffer of framed packets folds the packet step over them, refused or not |
| ReplayProperties.SplitBatch | dx9mt/src/backend/backend_bridge_stub.c:985-1174 | splitting a batch at a packet boundary changes nothing |
| ReplayProperties.ReplayInvariant | dx9mt/src/backend/backend_bridge_stub.c:693-864 | in every run: the total is stored plus dropped and counts the accepted draws and stretch-rects since the reset, drops happen only when full, the store is the first part of the log, and stored draws have valid refs |
| ReplayCounters.CountersAreRight | dx9mt/src/backend/backend_bridge_stub.c:985-1174 | in every run: the packet, draw and clear counters are the numbers of packets taken, draws and clears since the frame was begun, and the clear and last draw remembered are the last ones, field by field |
| FrameLayout.LayoutSound | dx9mt/src/backend/backend_bridge_stub.c:1298-1468 | blocks are 16-byte aligned, in order, disjoint and inside; offset plus used never exceeds the region |
| FrameLayout.PlaceOne | dx9mt/src/backend/backend_bridge_stub.c:1402-1412 | placing one payload wraps no sum, keeps the cursor aligned and inside, and succeeds if and only if it fits |
| FrameLayout.RoomCheckExactly | dx9mt/src/backend/backend_bridge_stub.c:1402-1412 | for a payload of any stated size, the room check keeps its block inside the region if and only if the sum does not wrap to at most the region's size |
| FrameLayout.PlacedExactly | dx9mt/src/backend/backend_bridge_stub.c:1402-1490 | a payload is placed if and only if its ref resolves, it is not empty and it fits what is left |
| FrameLayout.ViewerChecksPass | dx9mt/src/tools/metal_viewer.m:669-685 | every frame's header passes the viewer's checks and every nonempty block its range check |
| EntryFields.EntrySaysDraw | dx9mt/src/backend/backend_bridge_stub.c:1311-1400 | the entry of a draw, word by word as the viewer reads it, has the value of every named field of the draw's packet |
| EntryFields.EntrySaysStretch | dx9mt/src/backend/backend_bridge_stub.c:1311-1337 | the entry of a copy has the value of every named field of its packet, the destination in the place of a draw's target |
| FrameAssembly.CopyPayloads | dx9mt/src/backend/backend_bridge_stub.c:1402-1490 | the copies of a command leave each placed payload's arena bytes in its block and touch nothing before |
| FrameAssembly.AssembleDraws | dx9mt/src/backend/backend_bridge_stub.c:1307-1491 | the assembly loop leaves every entry and every block of every command, none overwritten by a later one |
| FrameAssembly.Publisher.WriteFrame | dx9mt/src/backend/backend_bridge_stub.c:1298-1511 | everything between the two stores to the sequence number: the frame is in the region, and it got there by stores that never touch the number |
| FrameAssembly.Publisher.PublishFrame | dx9mt/src/backend/backend_bridge_stub.c:1291-1514 | the region holds the frame under the next sequence number, by a store of zero to the number, stores elsewhere, and the store of the new number |
| FrameAssembly.Publisher.Present | dx9mt/src/backend/backend_bridge_stub.c:1209-1533 | present fails without effect without a target or for another frame; otherwise the region holds the first commands up to 2048 and the published header, and the state is closed |
| SnapshotProtocol.SnapshotSafety | dx9mt/src/tools/metal_viewer.m:3781-3824 | under every interleaving of single stores and loads, an accepted snapshot is exactly the frame published under its number, the header validated first is the snapshot's, and numbers strictly increase |
| SnapshotProtocol.PollOutcome | dx9mt/src/tools/metal_viewer.m:3781-3824 | a poll that no store disturbs accepts the frame in memory, to the end its header gives, if and only if it is complete, new and passes the checks, and otherwise changes nothing |
| SnapshotProtocol.PollPossible | dx9mt/src/tools/metal_viewer.m:3781-3824 | such a poll can always be made: load, header copy, check, body copy, second load |
| Publishing.FramePublished | dx9mt/src/backend/backend_bridge_stub.c:1291-1514 | the stores of one published frame are a run of the snapshot protocol's writer, which then has published the region as present leaves it |
| Publishing.PublishedInOrder | dx9mt/src/backend/backend_bridge_stub.c:1291-1514 | whatever the reader does in between, the regions the protocol records as published are those of the frames presented, in order |
| Frontend.PacketReads | dx9mt/include/dx9mt/packets.h:1-219 | a packet reads back as the type, size, number and words it was made from |
| FrontendDevice.DrawWordsCarry | dx9mt/src/frontend/d3d9_device.c:5395-5508 | the packet a draw builds carries the call's six arguments, all fifteen refs and the three sizes in their places |
| FrontendDevice.Direct3DDevice.DrawIndexedPrimitive | dx9mt/src/frontend/d3d9_device.c:5384-5517 | the whole call, uploads, cached constants, packet and submission, is exactly the system's draw step |
| FrontendDevice.Direct3DDevice.constructor | dx9mt/src/frontend/d3d9_device.c:5906-5968 | a new device is a start state of the system, with nothing published |
| FrontendDevice.Direct3DDevice.SetShaderConstantF | dx9mt/src/frontend/d3d9_device.c:5612-5622 | registers beyond 256 are refused; otherwise the file changes at those registers only and becomes dirty |
| FrontendDevice.ConstantGuardExactly | dx9mt/src/frontend/d3d9_device.c:5612-5622 | the guard keeps a range of constants inside the 256 registers if and only if its end does not wrap to one of them |
| FrontendDevice.Direct3DDevice.BeginScene | dx9mt/src/frontend/d3d9_device.c:4706-4734 | refused inside a scene; otherwise the begin-frame packet is sent and the frame starts |
| FrontendDevice.Direct3DDevice.Present | dx9mt/src/frontend/d3d9_device.c:4236-4288 | packet, published frame, next frame id, and cached constant refs forgotten: the system's present step, or the one that publishes nothing without a target; in every sound state, and the stores made so far remain those of the frames presented |
| EndToEnd.ConstantsCurrent | dx9mt/src/frontend/d3d9_device.c:5429-5440 | the constant ref of a draw, fresh or cached, is empty or resolves to the current file |
| EndToEnd.UploadHolds | dx9mt/src/frontend/d3d9_device.c:5384-5517 | after a draw's uploads every ref of its packet is empty or resolves to its source's bytes |
| EndToEnd.StepKeepsSound | dx9mt/src/frontend/d3d9_device.c:4236-5517 | every call of any run keeps the cached constant refs usable, the replay state in step, and the stored commands fit to be sent |
| EndToEnd.StepKeepsInv | dx9mt/src/backend/backend_bridge_stub.c:1209-1533 | a call keeps the system invariant, that stored draws still resolve to their bytes and published frames hold them, if and only if its uploads leave every stored record as it was |
| CallHistory.SendsWhatIsWanted | dx9mt/src/frontend/d3d9_device.c:5429-5511 | the fifteen payloads of a draw are, in their places, the contents of what is bound: vertices, indices, declaration or its substitute, constant files, due textures by stage, and both shaders |
| CallHistory.AcceptedExactly | dx9mt/src/backend/backend_bridge_stub.c:1030-1100 | a draw's packet is accepted if and only if it names target, buffers, and declaration or FVF, and both constant files got a place in the arena |
| CallHistory.UploadsFit | dx9mt/src/frontend/d3d9_device.c:584-634 | a draw whose payloads all have room in the frame's slot uploads every one of them |
| CallHistory.StepTold | dx9mt/src/frontend/d3d9_device.c:4236-5517 | every call keeps the stored commands, their bytes, the clear, and the frames presented in step with what the calls asked for, told without packets, refs or memory |
| Retention.CopiesKeepExactly | dx9mt/src/frontend/d3d9_device.c:584-634 | copies leave old bytes of their slot as they are if and only if each upload, placed by cursor and sizes alone, says the same where it lands on them |
| Retention.StepKeepsInvExactly | dx9mt/src/frontend/d3d9_device.c:569-634 | a call keeps the invariant if and only if it is no draw that lands different bytes on a payload drawn a multiple of three frames ago and still stored, as read off before the call |
| Retention.NearDrawsHarmless | dx9mt/src/frontend/d3d9_device.c:4706-4734 | a draw is harmless while the frame it adds to was begun fewer than three frames ago |
| Fidelity.RunKeepsInvExactly | dx9mt/src/frontend/d3d9_device.c:4236-5517 | a run keeps the invariant at every call if and only if all its draws are harmless |
| Fidelity.DisciplineSuffices | dx9mt/src/frontend/d3d9_device.c:4706-4734 | in a run whose draws all add to frames begun fewer than three frames ago, every draw is harmless |
| Fidelity.ConstantCacheCoherent | dx9mt/src/frontend/d3d9_device.c:4281-4287 | in every run, with draws, arena exhaustion and presents in any mix, both constant refs of a draw are empty or resolve to the current constant files |
| ViewerReading.FaithfulShows | dx9mt/src/tools/metal_viewer.m:2920-3624 | a frame whose commands stem from calls shows them to the viewer: entry by entry every field, payload by payload the wanted bytes inside the checked range, and every payload whole when arena and region had room |
| Fidelity.ConstantsUploadedOnce | dx9mt/src/frontend/d3d9_device.c:5429-5440 | after a draw whose upload of a constant file succeeded, the next draw takes the same ref and copies nothing until the file is set or the frame turns |
| Fidelity.EndToEndFidelity | dx9mt/src/tools/metal_viewer.m:3781-3844 | in every run of harmless draws, and every interleaving of the stores that published its frames with the reader, each accepted snapshot is the frame presented under its number as its calls asked for it: frame id, target and last clear; the first 2048 commands in order with every named field; and for every draw the contents of what was bound at that draw |
| Fidelity.NewFrameIsShown | dx9mt/src/tools/metal_viewer.m:3781-3844 | and whenever no frame is being published and the last one is new to the waiting viewer, an undisturbed poll accepts it and shows it as it was asked for |
| StaleDraw.DisciplineNeeded | dx9mt/src/frontend/d3d9_device.c:569-582 | in a run that presents three times without BeginScene, whatever two different constant files it uses, a stored draw made with the first no longer resolves to it |
| StaleDraw.StaleRunPossible | dx9mt/src/frontend/d3d9_device.c:4236-4288 | such a run exists from every start state |
| SurfaceCopy.CopyRows | dx9mt/src/frontend/d3d9_device.c:1119-1129 | the row path writes the source pixel at the same place of its rectangle, in bounds |
| SurfaceCopy.CopyScaled | dx9mt/src/frontend/d3d9_device.c:1131-1144 | the pixel loop writes the pixel at its 32-bit scaled position, which is inside the source rectangle, and nothing outside the destination rectangle |
| SurfaceCopy.CopyRect | dx9mt/src/frontend/d3d9_device.c:1069-1148 | when the copy succeeds, both directions; what it writes; and that a refused copy writes nothing |
| SurfaceCopy.CopyDetermined | dx9mt/src/frontend/d3d9_device.c:1069-1148 | the contract fixes every byte of the destination |
| SurfaceCopy.NearestExactly | dx9mt/src/frontend/d3d9_device.c:1131-1144 | every pixel is the nearest one, (floor(x*sw/dw), floor(y*sh/dh)), if and only if the copy does not scale or its largest products fit 32 bits |
| TextureCache.TextureObject.FillStage | dx9mt/src/frontend/d3d9_device.c:5348-5381 | a stage carries an upload exactly when it is due and fits, and only then is the state moved on |
| TextureCache.ViewerTextures.TextureForDrawStage | dx9mt/src/tools/metal_viewer.m:1900-2018 | the viewer's lookup order: override, cached generation, upload, cached fallback |
| TextureCache.CacheCoherence | dx9mt/src/tools/metal_viewer.m:1938-2017 | in every run, a stage carries its texture's bytes or follows within eight frames an upload of the same id, generation and bytes, and the viewer resolves it to what it last drew into the texture, or else to the last upload it took up, which is those bytes |
| TextureCache.UploadsExactlyWhenDue | dx9mt/src/frontend/d3d9_device.c:5348-5381 | in every run, a stage carries its texture's bytes, or was due them and the copy failed, if and only if no upload of the same id, generation and bytes is fewer than eight frames old |
| MipLevels.CreateLevels | dx9mt/src/frontend/d3d9_device.c:2008-2033 | iterated halving gives each level the size max(1, size >> level) that draw packets state; zero sizes are refused |
| MipLevels.ViewerReadsUpload | dx9mt/src/tools/metal_viewer.m:1254-1273 | for every level and accepted format the viewer reads what was uploaded modulo 32 bits, and exactly so if and only if the format is not A16B16G16R16F |
| RefCounts.BoundObjects.ReleaseObject | dx9mt/src/frontend/d3d9_device.c:2064-2082 | release counts down, and at zero frees the object and drops its surfaces' containers and references |
| RefCounts.BoundObjects.ReleaseBindings | dx9mt/src/frontend/d3d9_device.c:4033-4078 | every slot is released and cleared in order |
| RefCounts.BoundObjects.SetBinding | dx9mt/src/frontend/d3d9_device.c:4628-4650 | binding references the new object before it releases the old one |
| RefCounts.ReleaseOk | dx9mt/src/frontend/d3d9_device.c:1775-1789 | releasing the one reference too many restores the balance; what is freed was not bound, held or owned |
| RefCounts.StepKeepsInv | dx9mt/src/frontend/d3d9_device.c:4033-4111 | every create, get, set, reset and release call, and the device's last release, keeps the balance |
| RefCounts.CallEffects | dx9mt/src/frontend/d3d9_device.c:4628-4670 | each call's effect: a creation, an AddRef or a Get gives the client one more reference to its object, a Release takes one, no other call changes what the client holds; and what every slot holds afterwards |
| RefCounts.OwnershipKept | dx9mt/src/frontend/d3d9_device.c:4033-4111 | a new texture owns the surfaces it was made with, a reset leaves a swapchain that owns its back buffer, and no call changes what another object owns |
| RefCounts.CountsConserved | dx9mt/src/frontend/d3d9_device.c:4033-4111 | in every run, each count is client references plus bindings plus the owner's; nothing bound or held is freed; a container is null or a live owner |
| RefCounts.ClosedHoldsNothing | dx9mt/src/frontend/d3d9_device.c:4136-4154 | after the device's last release, in every run, what is still alive is held by the client or belongs to an owner that is |
| PassRouting.Renderer.RenderFrame | dx9mt/src/tools/metal_viewer.m:2920-3722 | the loop over commands, the overlay and the last end produce the specified trace, target cache and overrides |
| PassRouting.Renderer.RenderTargetTexture | dx9mt/src/tools/metal_viewer.m:1740-1821 | an id keeps its texture while its packed description is unchanged, and falls back to the old one when none can be made |
| PassRouting.Renderer.SourceTexture | dx9mt/src/tools/metal_viewer.m:3003-3014 | a copy's source: override, uploaded texture, then render target |
| PassRouting.Renderer.StretchRect | dx9mt/src/tools/metal_viewer.m:2967-3105 | a copy command, with every early exit |
| PassRouting.Renderer.DrawIndexed | dx9mt/src/tools/metal_viewer.m:3107-3624 | a draw command, reusing or opening a pass, with every early exit |
| PassRouting.PassesAreBracketed | dx9mt/src/tools/metal_viewer.m:2920-3722 | in every frame, whatever is refused: passes never nest and all end, commands are encoded on their own key, and a pass clears if and only if it is the first tried on its key |
| PassRouting.EncodedInOwnTexture | dx9mt/src/tools/metal_viewer.m:2967-3206 | in a steady frame every command is encoded while the pass targets that command's texture, and each texture is cleared by its first pass and loaded by later ones |
| EncodedCommands.OverridesFollowTrace | dx9mt/src/tools/metal_viewer.m:3100-3103 | in every frame, a texture id is overridden by the target of the last command encoded off the drawable into the texture with that id, and otherwise by what overrode it before |
| EncodedCommands.CopiesReadTheirSource | dx9mt/src/tools/metal_viewer.m:3004-3014 | in a steady frame every encoded copy reads the target last drawn into under its source's texture id at that point, or else the uploaded texture, or else the render target its source describes |
| EncodedCommands.CommandsEncodedExactly | dx9mt/src/tools/metal_viewer.m:2962-3206 | in a steady frame commands are encoded in order, at most once; a draw if and only if it is complete and usable and its target resolves; a copy if and only if its target and its source resolve, a pipeline is granted and all four sizes are nonzero; and the overlay last, when there is one |
| PassRouting.ReusedPassIsRight | dx9mt/src/tools/metal_viewer.m:3147-3149 | a draw that reuses the open pass is in its own texture if and only if its description packs to the cached one |
| PassRouting.StaleTarget | dx9mt/src/tools/metal_viewer.m:3147-3149 | two draws on one id with different sizes: the second lands in the old texture |
| PassRouting.RefusedTargetIsLoaded | dx9mt/src/tools/metal_viewer.m:3159-3206 | a target whose first encoder could not be made is loaded without a clear |
| PassRouting.PackTellsApart | dx9mt/src/tools/metal_viewer.m:1735-1738 | packed descriptions with sides below 65536 are equal if and only if the descriptions are |
| PassRouting.WidePackAlike | dx9mt/src/tools/metal_viewer.m:1735-1738 | a width of 65537 packs like a width of 1 |

## Left out

- ShaderPreservation.TranslationPreservesMeaning: covers MOV, ADD, SUB, MUL, MAD, DP3, DP4, DP2ADD, RCP, RSQ, MIN, MAX, SLT, SGE, EXP, LOG, FRC, ABS, LRP, CMP, POW, SINCOS, SGN, NOP and all flow control; LIT, DST, NRM, CRS, MOVA, the matrix products and texture operations have no meaning here, nor has relative addressing.
- ShaderPreservation.TranslationPreservesMeaning: a REP count must be an integer constant, because Metal evaluates the bound before every pass and D3D9 once.
- ShaderPreservation.ArithmeticExact: for operations that use the arbitrary scalar functions, several operations at once or a register twice, the channel condition is proved sufficient, as it cannot be necessary for every choice of them.
- ShaderAssignments.SinCosRuns: writes to z or w, which D3D9 leaves without a meaning, are not covered.
- ShaderStart.TranslatedFromStart: what a draw gives fits the fields, so nothing is given beyond an input's components; output structures and their return are left out.
- ShaderScope.CompilesExactly: attribute indices and user semantics that collide, and the other parts of the emitted text that do not depend on the instructions, are not checked.
- MslEmitter.Emitter.EmitInstructions: the operations above that have no meaning here give no lines, and the position and face registers no names.
- Shader text: lines are a syntax tree, so the buffer's capacity, textual operator precedence and number formatting are not modelled.
- ShaderParser.Parser.Parse: a sampler number of 32 or more is added to the usage set where the source shifts out of range.
- ShaderTokens.SrcRoundTrip: the lane of a relative address travels in the token that follows, whose round trip is separate.
- Replay.Bridge.SubmitPackets: buffers within 64 KiB of 4 GiB, where the source's 32-bit offset could wrap, are excluded.
- Replay.Bridge.SubmitPackets: the INIT and SHUTDOWN packets only pass through; bridge shutdown and a second initialisation are not modelled.
- FrameLayout.LayoutSound: payloads whose stated size runs past the end of the arena, which the source would read beyond it, are excluded; what the room check then does is in FrameLayout.RoomCheckExactly.
- Fidelity.EndToEndFidelity: the words of a draw packet other than its arguments, payloads and sizes are given with the call, and delivered by name; which textures are due an upload is a parameter, decided in TextureCache; the window size in the header is the publisher's alone.
- FrontendDevice.Direct3DDevice.DrawIndexedPrimitive: the declaration synthesised from an FVF code is a parameter, and Bind stands for all the Set calls, whose reference counts are in RefCounts.
- FrontendDevice.Direct3DDevice.SetShaderConstantF: a range whose end wraps 32 bits, which the guard can take, is not stored, because the code then copies outside the file.
- FrontendDevice.Direct3DDevice.Present: the soft-present path that follows a successful publication, and its result.
- SnapshotProtocol.SnapshotSafety: loads and stores are sequentially consistent; weaker memory orders are not modelled.
- FrameAssembly.Publisher.Present: logging and diagnostics are left out.
- SurfaceCopy.CopyRect: block-compressed surfaces and copies within one surface.
- TextureCache.CacheCoherence: a fixed level of detail; changing it does not mark a texture dirty.
- TextureCache.ViewerTextures.TextureForDrawStage: an upload's range, its format and the allocation of a texture are one flag.
- MipLevels.CreateLevels: levels below 32, as the shift in the packet requires; cube textures follow the same arithmetic.
- RefCounts.CountsConserved: objects are values in a map by id, not heap cells, so a dangling pointer is an id outside the map; failed creations and the device's own count are left out.
- PassRouting.Renderer.RenderFrame: depth attachments, clear colours, viewports and scissors; what the device grants is an input of each command.
- EncodedCommands.CommandsEncodedExactly: for steady frames, in which each id has one description and the device grants every texture and encoder; what a draw samples is in TextureCache, and the source of a full-screen copy that replaces a draw is left out.
- PassRouting.Renderer.DrawIndexed: whether a draw's other resources are there is one flag of the command.
- Win32, COM plumbing, Metal objects, windows, file mapping, the overlay's contents, frame dumps and capability tables.
