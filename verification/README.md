# Verification of the PCSX emulator core

Machine-checked models of seven parts of the emulator under `libpcsxcore/`, with proofs of what they are
for. Check everything with `dafny verify dfyconfig.toml`.

- **Motion decoder** (`Idct`, `Cosines`, `RunLength`, `PixelOutput`, `Colors`, `MdecDma`): the IDCT that skips
  columns equals the dense one for every stream, and that is the inverse cosine transform; coefficients in the
  bits of their codes; the pixel loops equal their closed form; how output is cut into DMA transfers cannot be seen.
- **Geometry coprocessor** (`GteRegisters`, `GteOps`, `GteMeaning`, `GteFused`, `GteBuilds`, `GteMachine`): what the
  operations compute; those on three vertices equal three single ones; the FLAGLESS build refines the flagged one
  over whole programs; no `int` subexpression overflows. Every 16- and 32-bit quantity has a subset type, so
  overflow is ruled out by the types.
- **CD-ROM controller** (`CdState`, `CdSteps`, `CdSafety`, `CdStreaming`, `CdCommands`, `CdLid`, `CdMachine`): a state
  machine over register writes and four scheduled events; no work is lost, no response overwritten, Setloc and a
  read hand over the sectors asked for in order, and the drive becomes ready after the lid was open.
- **CHD images** (`ChdTable`, `ChdImage`): the sector map is right for every track list, the hunk cache cannot be
  seen, audio and data reads address the same frame.
- **Cheats** (`CheatText`, `CheatFormat`, `CheatStore`, `CheatEngine`, `CheatMeaning`, `CheatUndo`, `CheatRuns`,
  `CheatMachine`): the file round trip down to the buffer of `fgets`, the arena of codes, what each kind of code does
  to memory, the interpreter, and exactly when switching off undoes.
- **Breakpoint list** (`Breakpoints`): a circular doubly-linked list on the heap against a sequence.
- **Autosave ring** (`AutosaveRing`): which snapshot is where, which is written, and under which name.

`Common` holds bytes and BCD. Each part has a specification as functions, theorems about it, and classes or array
methods in the form of the source (`GteMachine`, `CdMachine`, `CheatMachine`, and the classes in the other files)
whose contracts say that they compute it. The files, the clock, the disc, the sub-channel data and `DIVIDE` are parameters.

## Where the code does less than one would expect

- DPCT clamps all three channels with `limB1`, so its FLAG can have a bit that none of three DPCS has
  (`GteFused.DpctFlagContained` gives the exact condition).
- Bit 31 of FLAG does not sum up bits 28 to 30, a MAC sum too large (`GteMeaning.ErrorsAreSummedUp`).
- Five lid events do not always make the drive ready. A shell bit still standing from an earlier opening does not
  stop a read when the lid opens again; each read then sets the disc turning, and the drive never becomes ready.
  And a seek that is pending when the lid opens can cost a sixth event (`CdLid.FiveSufficeExactly`).
- `ReadTrack` remembers a sector as read even when the read failed; it is not tried again until the head moves
  (`CdStreaming.ServedFailsExactly`, `CdStreaming.ReadErrorIsFinal`).
- A reset keeps the sector buffer and takes it for sector 0:0:0, so that a read there would get what was left
  (`CdStreaming.ResetLeavesBuffer`); everywhere else the cache is right (`CdStreaming.CacheIsRight`).
- `sec2msf` stores minutes in a `char`; from 128 minutes on the conversion cannot be undone
  (`ChdTable.MsfRoundTrip`).
- Switching off does not undo every cheat. A constant write behind a slide, a copy or a comparison that failed at the
  first pass writes an old value that was never taken; two constant writes to one byte leave the first value there
  (`CheatUndo.ByteIsUndoneExactly`, `CheatRuns.UndoneExactly`). What increments, slides and copies did is not undone
  at all (`CheatUndo.ElsewhereIsUndoneExactly`). An edit of a cheat that is on makes the next switching
  off write old values never taken, and leaves the old bytes as they are (`CheatRuns.EditIsSafeExactly`).
- With three discs in short succession, or a disc that is not recognised, an autosave can be filed under the wrong id
  (`AutosaveRing.LabelIsRightExactly`).
- The bit named `MDEC0_RGB24` selects the 16-bit loops when it is set; the model follows the code.

## Model

| member | source | states |
|---|---|---|
| Idct.Idct | libpcsxcore/mdec.c:84-202 | In place and for every mask that describes the block, the routine that skips columns leaves exactly the 64 values of the butterfly applied to all 8 columns and then all 8 rows, and touches nothing outside the block. |
| Idct.SkippingTransform | libpcsxcore/mdec.c:91-200 | The same for any butterfly at all that spreads a lone DC term: the sparse form refines the dense one whatever the arithmetic inside. |
| Idct.ButterflySpreadsDc | libpcsxcore/mdec.c:103-131 | The AAN butterfly with the source's constants maps a line with only its first entry set to that entry eight times, the one fact the skipping rests on. |
| Idct.ColumnLoop | libpcsxcore/mdec.c:97-160 | The column loop is the full column pass, and the mask it hands to the row loop marks every column that is not zero. |
| Idct.FirstColumnSpreads | libpcsxcore/mdec.c:163-166 | If only column 0 is not zero, the full row pass copies it along each row, so the short row loop is right. |
| Idct.DenseOfDc | libpcsxcore/mdec.c:91-95 | A block with only its DC coefficient transforms to that value 64 times, so the -1 shortcut is right. |
| Cosines.ButterflyIsTheTransform | libpcsxcore/mdec.c:103-151 | Every output of the butterfly is 4096ths of the weighted sum of its inputs, with the table of weights written out, up to the rounding of its multiplications (at most 8190 of 4096ths). |
| Cosines.WeightsAreCosines | libpcsxcore/mdec.c:60-63 | Weight (i, k) is 4096 cos((2i+1)k pi/16) / cos(k pi/16) to within one, for every function that obeys the addition theorem of the cosine; so the butterfly is the AAN inverse cosine transform. |
| Cosines.DenseIdctIsTheTransform | libpcsxcore/mdec.c:84-202 | For every block each of the 64 values that idct leaves is the two-dimensional weighted sum of the coefficients, to within 25 (of 1024 to a colour level). |
| Cosines.DenseIdctIsMirrored | libpcsxcore/mdec.c:144-151 | Coefficients in even columns only give rows that are their own mirror image, in odd columns only their negative: exactly. |
| Cosines.DenseIdctIsMirroredDown | libpcsxcore/mdec.c:188-198 | Coefficients in even rows only give columns that are their own mirror image. |
| Cosines.ScalesArePrescales | libpcsxcore/mdec.c:246-255 | Every entry of `aanscales` is 2^20 times the product of the factors of its row and column, 1 or sqrt 2 cos(k pi/16), to within one. |
| Cosines.PrescalesMultiply | libpcsxcore/mdec.c:246-255 | That product, by the addition theorem, is a sum of two cosines. |
| Cosines.TablesAreUploaded | libpcsxcore/mdec.c:257-263 | Command 4 uploads both tables: entry n is the byte at place n (the chroma table 64 bytes behind), low byte of a halfword first, times the factor of the zig-zag place of n. |
| RunLength.ZscanIsTheZigzagWalk | libpcsxcore/mdec.c:235-244 | The table `zscan` starts at 0, follows the walk of figure A.6 in section A.3.6 of ITU-T T.81 step by step, visits every place and none twice. |
| RunLength.MaskIsSound | libpcsxcore/mdec.c:279-295 | Along the AC loop a clear column bit means rows 1-7 of that column are zero, from every starting state. |
| RunLength.BlockMaskIsSound | libpcsxcore/mdec.c:267-306 | For every stream and table the mask passed to `idct` describes the block; -1 is passed only when every AC coefficient is zero. |
| RunLength.CodesSetCoefficients | libpcsxcore/mdec.c:282-295 | A decoded coefficient is the dequantised value of the one code that stands for its zig-zag place, or what was there before if no code does. |
| RunLength.CodesFollowStream | libpcsxcore/mdec.c:281-288 | The codes of a block are its halfwords up to 0xfe00 or to a run that leaves the block; each stands one place further than the run in its upper six bits from the one before. |
| RunLength.CoefficientsOfBlock | libpcsxcore/mdec.c:275-295 | In the bits of the halfwords: the coefficient at the zig-zag place of a code is its signed ten-bit level times the table entry times the upper six bits of the header, over 4096, rounded; the DC entry is the header's signed level times the first table entry, over 512, rounded; all others are zero. |
| RunLength.BlockTakesItsCodes | libpcsxcore/mdec.c:281-288 | A block takes a halfword for each code and one more, whatever the tables. |
| RunLength.TablesOfBlocks | libpcsxcore/mdec.c:270-274 | The first two blocks of a macroblock do not depend on the luma table, the other four not on the chroma table. |
| RunLength.Macroblock | libpcsxcore/mdec.c:267-306 | Decoding always ends, having consumed between 12 and 390 halfwords, with 384 samples. |
| RunLength.Rl2Blk | libpcsxcore/mdec.c:267-306 | The routine with its fast IDCT leaves in place the six densely transformed blocks of the reference decoder and returns the reference's position, for every stream and both tables. |
| PixelOutput.Rgb15ChannelsAreSeparate | libpcsxcore/mdec.c:312-326 | The packed 15-bit pixel contains each clamped channel and the mask bit in its own place, and can be taken apart again. |
| PixelOutput.ClampScale5 | libpcsxcore/mdec.c:320-326 | A scaled channel is between 0 and 31, whatever the samples (at 24 bits its type is a byte). |
| PixelOutput.PixelsMakeTheFrame | libpcsxcore/mdec.c:357-378 | 256 pixels, each right on its own, are the whole macroblock image. |
| Colors.ColorsAt24Bits | libpcsxcore/mdec.c:312-326 | Pixel (u, v) of luma block (col, row), from its own luma sample and the chroma samples of its two-by-two square: red is Y + 1434/1024 Cr, green Y - 351/1024 Cb - 728/1024 Cr, blue Y + 1807/1024 Cb, scaled, rounded, moved by 128 and held to a byte. |
| Colors.ColorsAt15Bits | libpcsxcore/mdec.c:312-337 | At 15 bits the same sums at an eighth of the scale, held to 0..31: red in the low five bits, then green, then blue, the mask bit on top. |
| Colors.SumsAreJpeg | libpcsxcore/mdec.c:308-318 | The weights are those of the JPEG conversion, 1.400, 0.343, 0.711 and 1.765, to ten bits. |
| PixelOutput.Yuv2Rgb | libpcsxcore/mdec.c:339-378 | For both depths (the 24-bit loops are at lines 391-429) the pointer walk writes each of the 256 pixels exactly once, and pixel (x, y) comes from luma block 2(y/8)+(x/8) at (x mod 8, y mod 8) and chroma at (x/2, y/2). |
| MdecDma.TransfersJoin | libpcsxcore/mdec.c:545-635 | Two transfers deliver what one of both sizes would and leave the same leftover and input position. |
| MdecDma.ChunkingIsInvisible | libpcsxcore/mdec.c:545-635 | Any two ways to cut the same total into transfers, each taking the leftover it finds, deliver the same bytes and leave the same state. |
| MdecDma.RunDeliversPrefix | libpcsxcore/mdec.c:545-635 | From a fresh start the bytes delivered are the prefix of the decoded macroblocks, and the input has advanced by exactly ceil(total / block size) macroblocks. |
| MdecDma.DecodingEnds | libpcsxcore/mdec.c:637-671 | At the interrupt after that output the decoder falls idle if and only if the input read reaches the end of the command's data or stands at an end code. |
| MdecDma.PictureArrives | libpcsxcore/mdec.c:467-635 | A decode command and an output request, given in the bits of their registers: the target in memory takes the first bytes of the macroblocks decoded from the source in the format of bits 27 and 25, and the rest of memory stays. |
| MdecDma.RequestsJoin | libpcsxcore/mdec.c:545-635 | While the device is busy, two requests for adjoining memory leave the whole device and memory as one request for both does. |
| MdecDma.EarlyRequestIsServed | libpcsxcore/mdec.c:487-500 | A transfer requested before the decode command has the same effect on memory, input and leftover as one requested after it. |
| MdecDma.Mdec.Serve | libpcsxcore/mdec.c:560-626 | The code with its block buffer and its three copy phases is the one abstract transfer, at the right place in memory and nowhere else. |
| MdecDma.Mdec.Dma1 | libpcsxcore/mdec.c:545-635 | A request is served when the decoder is busy and remembered otherwise; other transfer modes do nothing. |
| MdecDma.Mdec.Dma0 | libpcsxcore/mdec.c:470-531 | Decode commands start the decoder and serve the remembered request; command 4 loads both quantisation tables, prescaled and in zig-zag order. |
| MdecDma.Mdec.OutputInterrupt | libpcsxcore/mdec.c:637-671 | The decoder falls idle at the end of its input or at an end code, and otherwise stays as it is. |
| GteBuilds.IntSubexpressionsFit | libpcsxcore/gte.c:405-958 | Every shape of int-typed product, difference of products, blend and depth sum in the operations fits 32 bits, for all register values. |
| GteBuilds.SumAgreesExactly | libpcsxcore/gte.c:426-427 | Converting a screen sum to 32 bits before or after the shift gives the same coordinate if and only if the sum fits 32 bits or lies so far outside that it saturates alike. |
| GteBuilds.OperationAgrees | libpcsxcore/gte.c:171-244 | An operation leaves the same data registers in the flagged and the FLAGLESS build if and only if its screen sums (if it has any) agree. |
| GteBuilds.BuildsAgreeOverPrograms | libpcsxcore/gte.c:171-244 | Over every program that does not read FLAG, branching on what it reads, the two builds agree in data and control registers and in every word read, after every step. |
| GteMeaning.MvmvaIsTheAffineMap | libpcsxcore/gte.c:463-485 | Component i of MAC is 4096 t(i) + sum over j of m(i,j) v(j), shifted by 12 if sf says so and cut to 32 bits, for the matrix, vector and translation that mx, v and cv number; IR is MAC held to 16 bits; nothing else changes. |
| GteMeaning.UnitVectorGivesColumn | libpcsxcore/gte.c:463-485 | The unit vector along axis j leaves column j of the matrix in MAC. |
| GteMeaning.ZeroVectorGivesTranslation | libpcsxcore/gte.c:463-485 | The zero vector leaves the translation. |
| GteMeaning.MvmvaIsAffine | libpcsxcore/gte.c:463-485 | Unshifted, MAC is affine in the vector, in the arithmetic of 32 bits. |
| GteMeaning.MvmvaFlagTells | libpcsxcore/gte.c:223-244 | Bits 30-28 of FLAG are raised exactly by MAC sums too large for 32 bits, bits 27-25 by sums too small, bits 24-22 where IR is not MAC. |
| GteMeaning.RtpsProjects | libpcsxcore/gte.c:405-431 | MAC and IR of RTPS are those of MVMVA on rotation, V0 and translation; the depth is MAC3 held to 16 bits, the position the screen offset plus IR times the quotient over 65536, held to the screen, MAC0 and IR0 the cueing of the quotient; the FIFOs move by one. |
| GteMeaning.NcsIsTwoProducts | libpcsxcore/gte.c:822-847 | NCS is MVMVA of light matrix and V0, then MVMVA of light colour matrix and IR with the background, and the result over 16 pushed as a colour. |
| GteMeaning.NccsTintsTheLight | libpcsxcore/gte.c:535-566 | NCCS multiplies RGB with the light of NCS. |
| GteMeaning.CcTintsTheProduct | libpcsxcore/gte.c:883-908 | CC multiplies RGB with the product of IR. |
| GteMeaning.NcdsCuesTheLight | libpcsxcore/gte.c:609-640 | NCDS blends RGB times the light of NCS towards the far colour by IR0. |
| GteMeaning.CdpCuesTheProduct | libpcsxcore/gte.c:933-958 | CDP blends RGB times the product of IR towards the far colour by IR0. |
| GteMeaning.DpcsCuesTheColor | libpcsxcore/gte.c:774-795 | DPCS blends RGB towards the far colour by IR0; without sf the difference is shifted first. |
| GteMeaning.IntplBlendsIr | libpcsxcore/gte.c:910-931 | INTPL blends IR towards the far colour by IR0. |
| GteMeaning.DcplBlendsTheTint | libpcsxcore/gte.c:700-726 | DCPL blends RGB times IR towards the far colour by IR0. |
| GteMeaning.EndsOfBlend | libpcsxcore/gte.c:774-795 | A blend with IR0 = 0 is its base, and with IR0 = 4096 base and difference together, unless the difference is out of range. |
| GteMeaning.GpfIsAProduct | libpcsxcore/gte.c:728-749 | GPF is MVMVA with IR0 three times on the diagonal of a matrix, and the colour pushed. |
| GteMeaning.GplAddsGpf | libpcsxcore/gte.c:751-772 | GPL adds the MAC of GPF to MAC, modulo 2^32. |
| GteMeaning.SqrIsAProduct | libpcsxcore/gte.c:518-533 | SQR is MVMVA with IR on the diagonal of a matrix, on IR. |
| GteMeaning.OuterProductIsACrossProduct | libpcsxcore/gte.c:683-698 | OP leaves a vector at right angles to IR and to the diagonal of the rotation matrix, of the length of a cross product and oriented by the right hand. |
| GteMeaning.NclipIsTwiceTheArea | libpcsxcore/gte.c:487-496 | NCLIP leaves twice the oriented area of the triangle of the screen FIFO, cut to 32 bits. |
| GteMeaning.NclipIsAnOrientedArea | libpcsxcore/gte.c:487-496 | It stays when the corners move round, changes sign when two are exchanged, and is zero when two coincide. |
| GteMeaning.AverageScalesTheDepths | libpcsxcore/gte.c:498-516 | AVSZ3 and AVSZ4 leave ZSF3 and ZSF4 times the sum of the last three or four depths in MAC0, and that over 4096 held to 16 bits in OTZ. |
| GteMeaning.RtpsFlagTells | libpcsxcore/gte.c:405-431 | RTPS raises bit 18 exactly where the depth was held, 17 where the quotient was, 16 and 15 where a screen or cueing sum is too large or too small, 14 and 13 where a coordinate was held, 12 where IR0 was. |
| GteMeaning.ColorFlagTells | libpcsxcore/gte.c:223-244 | Every single colour operation raises bits 21, 20 and 19 exactly where red, green and blue are not MAC / 16. |
| GteMeaning.AreaFlagTells | libpcsxcore/gte.c:487-496 | NCLIP raises bit 16 or 15 exactly where the area is too large or too small for 32 bits. |
| GteMeaning.AverageFlagTells | libpcsxcore/gte.c:498-516 | AVSZ3 and AVSZ4 likewise, and bit 18 exactly where OTZ was held. |
| GteMeaning.ErrorsAreSummedUp | libpcsxcore/gte.c:223-244 | After every operation, in both builds, bit 31 of FLAG is set if and only if one of bits 27-23, 18-13 is; bits 28-30, a MAC sum too large, are not among them in the source. |
| GteFused.RtptIsRtpsInTurn | libpcsxcore/gte.c:405-461 | RTPT leaves the data registers of RTPS on V0, V1, V2 in turn; the FLAG of the three is that of RTPT and the depth-cueing bits of the first two vertices. |
| GteFused.NctIsNcsInTurn | libpcsxcore/gte.c:822-881 | NCT leaves the data registers of three NCS; the difference in FLAG is exactly the saturation of the first two colours. |
| GteFused.NcctIsNccsInTurn | libpcsxcore/gte.c:535-607 | NCCT is three NCCS, all registers and FLAG bit for bit. |
| GteFused.NcdtIsNcdsInTurn | libpcsxcore/gte.c:609-681 | NCDT leaves the data registers of three NCDS; the difference in FLAG is exactly the saturation of the first two results. |
| GteFused.DpctIsDpcsInTurn | libpcsxcore/gte.c:774-820 | DPCT leaves the data registers of three DPCS (sf = 1) fed from the front of the colour FIFO. |
| GteFused.DpctFlagContained | libpcsxcore/gte.c:774-820 | FLAG of DPCT is among the bits of the three DPCS if and only if no green or blue difference saturates, or some red value does as well: DPCT clamps every channel with limB1. |
| GteFused.DpctFlagNotAlwaysContained | libpcsxcore/gte.c:797-820 | A register state for which it is not: black colours and a green far colour of 0x18000. |
| GteFused.GplPartIsGpl | libpcsxcore/gte.c:1026-1082 | GPL in the parts the recompiler calls is GPL, registers and FLAG. |
| GteFused.DpcsPartIsDpcs | libpcsxcore/gte.c:1042-1060 | DPCS in parts, which converts to 32 bits before it shifts, computes the colour of DPCS. |
| GteMachine.Gte.RtpsInPlace | libpcsxcore/gte.c:405-431 | RTPS as a sequence of register writes, with FLAG gathered by the clamping macros, is the operation that the refinement theorems are about, in both builds. |
| GteMachine.Gte.RtptInPlace | libpcsxcore/gte.c:433-461 | RTPT, with its loop over the vertices as a sequence of register writes, with FLAG gathered by the clamping macros, is the operation that the refinement theorems are about, in both builds. |
| GteMachine.Gte.MvmvaInPlace | libpcsxcore/gte.c:463-485 | MVMVA as a sequence of register writes, with FLAG gathered by the clamping macros, is the operation that the refinement theorems are about, in both builds. |
| GteMachine.Gte.NclipInPlace | libpcsxcore/gte.c:487-496 | NCLIP as a sequence of register writes, with FLAG gathered by the clamping macros, is the operation that the refinement theorems are about, in both builds. |
| GteMachine.Gte.AverageInPlace | libpcsxcore/gte.c:498-516 | AVSZ3 and AVSZ4 as a sequence of register writes, with FLAG gathered by the clamping macros, is the operation that the refinement theorems are about, in both builds. |
| GteMachine.Gte.SqrInPlace | libpcsxcore/gte.c:518-533 | SQR as a sequence of register writes, with FLAG gathered by the clamping macros, is the operation that the refinement theorems are about, in both builds. |
| GteMachine.Gte.NccsInPlace | libpcsxcore/gte.c:535-566 | NCCS as a sequence of register writes, with FLAG gathered by the clamping macros, is the operation that the refinement theorems are about, in both builds. |
| GteMachine.Gte.NcctInPlace | libpcsxcore/gte.c:568-607 | NCCT as a sequence of register writes, with FLAG gathered by the clamping macros, is the operation that the refinement theorems are about, in both builds. |
| GteMachine.Gte.NcdsInPlace | libpcsxcore/gte.c:609-640 | NCDS as a sequence of register writes, with FLAG gathered by the clamping macros, is the operation that the refinement theorems are about, in both builds. |
| GteMachine.Gte.NcdtInPlace | libpcsxcore/gte.c:642-681 | NCDT as a sequence of register writes, with FLAG gathered by the clamping macros, is the operation that the refinement theorems are about, in both builds. |
| GteMachine.Gte.OuterProductInPlace | libpcsxcore/gte.c:683-698 | OP as a sequence of register writes, with FLAG gathered by the clamping macros, is the operation that the refinement theorems are about, in both builds. |
| GteMachine.Gte.DcplInPlace | libpcsxcore/gte.c:700-726 | DCPL as a sequence of register writes, with FLAG gathered by the clamping macros, is the operation that the refinement theorems are about, in both builds. |
| GteMachine.Gte.GpfInPlace | libpcsxcore/gte.c:728-749 | GPF as a sequence of register writes, with FLAG gathered by the clamping macros, is the operation that the refinement theorems are about, in both builds. |
| GteMachine.Gte.GplInPlace | libpcsxcore/gte.c:751-772 | GPL as a sequence of register writes, with FLAG gathered by the clamping macros, is the operation that the refinement theorems are about, in both builds. |
| GteMachine.Gte.DpcsInPlace | libpcsxcore/gte.c:774-795 | DPCS as a sequence of register writes, with FLAG gathered by the clamping macros, is the operation that the refinement theorems are about, in both builds. |
| GteMachine.Gte.DpctInPlace | libpcsxcore/gte.c:797-820 | DPCT as a sequence of register writes, with FLAG gathered by the clamping macros, is the operation that the refinement theorems are about, in both builds. |
| GteMachine.Gte.NcsInPlace | libpcsxcore/gte.c:822-847 | NCS as a sequence of register writes, with FLAG gathered by the clamping macros, is the operation that the refinement theorems are about, in both builds. |
| GteMachine.Gte.NctInPlace | libpcsxcore/gte.c:849-881 | NCT as a sequence of register writes, with FLAG gathered by the clamping macros, is the operation that the refinement theorems are about, in both builds. |
| GteMachine.Gte.CcInPlace | libpcsxcore/gte.c:883-908 | CC as a sequence of register writes, with FLAG gathered by the clamping macros, is the operation that the refinement theorems are about, in both builds. |
| GteMachine.Gte.IntplInPlace | libpcsxcore/gte.c:910-931 | INTPL as a sequence of register writes, with FLAG gathered by the clamping macros, is the operation that the refinement theorems are about, in both builds. |
| GteMachine.Gte.CdpInPlace | libpcsxcore/gte.c:933-958 | CDP as a sequence of register writes, with FLAG gathered by the clamping macros, is the operation that the refinement theorems are about, in both builds. |
| CdSafety.StepKeepsScheduled | libpcsxcore/cdrom.c:205-254 | No step, whatever the command, event or register write, leaves pending work without its event: a pending Irq or the busy bit has CDR, Reading has CDREAD, Play has CDRPLAY, a drive not ready has CDRLID. |
| CdSafety.RunKeepsScheduled | libpcsxcore/cdrom.c:553-568 | So in every state reachable from a scheduled one, over every interleaving. |
| CdSafety.ResetIsScheduled | libpcsxcore/cdrom.c:2499-2517 | A reset leaves nothing pending, so every run from a reset is covered. |
| CdSafety.ResponseIsKept | libpcsxcore/cdrom.c:570-700 | While `Stat` is not zero no step but the acknowledge write or a reset changes `Stat`, `Result` or `ResultC`. |
| CdSafety.ResponseSurvivesRun | libpcsxcore/cdrom.c:681-700 | Over every run without an acknowledgement a raised response is still there, byte for byte. |
| CdStreaming.AdvanceIsTheNextSector | libpcsxcore/cdrom.c:1393-1401 | The byte-wise step of minute, second and frame is the next sector number, up to the last position that has a BCD form. |
| CdStreaming.ServedDelivers | libpcsxcore/cdrom.c:1280-1444 | A served read either fails and the head stays, or it hands over the sector at the head and moves on, although the buffer was read ahead and reads of the last sector are skipped, and also when a seek is still pending; the cache does not deceive the next read, which is not bound to fail if its sector can be read. Nothing is asked of the disc. |
| CdStreaming.OtherStepsAreHarmless | libpcsxcore/cdrom.c:494-551 | No other step but a command or a reset moves the head, and the only thing one can do to the cache is the read of the sector at the head when a pending seek ends. |
| CdStreaming.SeekIsARead | libpcsxcore/cdrom.c:616-645 | The end of a pending seek reads the sector at the head, unless it is the one read last, and leaves the head where it is. |
| CdStreaming.TrackReadKeepsCache | libpcsxcore/cdrom.c:494-551 | A read ahead, successful or not, keeps the cache right and notes the position. |
| CdStreaming.StepKeepsCache | libpcsxcore/cdrom.c:494-551 | No step at all, commands and errors included, makes the cache wrong; a reset may, about 0:0:0 alone. |
| CdStreaming.ResetLeavesBuffer | libpcsxcore/cdrom.c:2499-2517 | A reset leaves the sector buffer and takes it for sector 0:0:0. |
| CdStreaming.CacheIsRight | libpcsxcore/cdrom.c:494-551 | From every reset on and over every run with one disc, whatever is commanded, fails or is reset again, the cache deceives no read anywhere but at 0:0:0. |
| CdStreaming.ReadCommandStartsStream | libpcsxcore/cdrom.c:1098-1147 | A read command accepted on a data track leads into a state from which a stream starts, at the place of a pending Setloc if there is one. The cache deceives its first read if and only if it is wrong about that very place, and that read is bound to fail if and only if the place fails now, or was the one read last and failed. |
| CdStreaming.ReadCommandDelivers | libpcsxcore/cdrom.c:1280-1444 | From every reset, over every run with one disc, and for every read command accepted there on a data track (0:0:0 aside): until the next command or reset the sectors handed over are the target and those behind it, in order, patched. |
| CdStreaming.StreamIsConsecutive | libpcsxcore/cdrom.c:1280-1444 | Over every run without commands or resets, however other events interleave, whatever reads fail and even if a seek is pending at its start, the k sectors handed over are s to s+k-1 in order (00:02:04 aside), and the head is left at s+k with a valid position. |
| CdStreaming.NoReadFails | libpcsxcore/cdrom.c:1280-1444 | If the sectors that the served reads of such a run ask for can be read, every one of them is handed over; the sector read ahead behind the last may be unreadable, as at the end of the disc. |
| CdStreaming.ReadErrorIsFinal | libpcsxcore/cdrom.c:494-551 | After a served read that failed, over every run without commands or resets every served read fails and the head stays, even once the sector is readable. |
| CdStreaming.ServedFailsExactly | libpcsxcore/cdrom.c:1280-1325 | A served read fails if and only if the sector at the head is the one read last and that failed, or it is another one and cannot be read. |
| CdStreaming.FailureIsRemembered | libpcsxcore/cdrom.c:1311-1320 | A served read that fails leads into the state from which all later ones fail. |
| CdCommands.SetlocSendsTheHead | libpcsxcore/cdrom.c:2236-2246 | Three BCD bytes written as parameters and the command Setloc: the head is to go to the time written, and a seek is pending if one was or the way is more than 16 sectors. |
| CdCommands.StepKeepsSetSector | libpcsxcore/cdrom.c:2236-2246 | Whatever happens, the position of Setloc changes only with the next Setloc or a reset. |
| CdCommands.PendingSetlocIsTheTarget | libpcsxcore/cdrom.c:2236-2246 | Over every run with no further Setloc that has not used it up, the head is to go where Setloc said. |
| CdCommands.SetlocAndReadDeliver | libpcsxcore/cdrom.c:1280-1444 | From every reset, over every run with one disc: Setloc with three BCD bytes over the registers, a read command on a data track, and no command after it hand over the sector at the time written and those behind it, in order, patched. |
| CdCommands.StatusBits | libpcsxcore/cdrom.h:50-121 | The status byte shows playing, seeking, reading, the shell and the motor in bits 7, 6, 5, 4 and 1. |
| CdCommands.TracksAreReported | libpcsxcore/cdrom.c:933-943 | GetTN answers the status and the first and last track in BCD. |
| CdCommands.TrackStartIsReported | libpcsxcore/cdrom.c:945-958 | GetTD answers the status and the start of the track asked for in BCD. |
| CdCommands.HeaderIsReported | libpcsxcore/cdrom.c:910-913 | GetlocL answers the header of the sector handed over last. |
| CdCommands.NopReportsAndClears | libpcsxcore/cdrom.c:717-721 | Nop answers the shell bit as it stood and clears it unless the lid is open. |
| CdCommands.ErrorsAreReported | libpcsxcore/cdrom.c:1149-1169 | A command that does not exist is answered with error 0x40; any answering command but Nop, Setmode, Getmode and Test with error 0x80 while the drive is not ready. |
| CdCommands.FirstHalfAnswers | libpcsxcore/cdrom.c:812-883 | Standby, Stop, Pause, Init, ReadT, ID and ReadToc are acknowledged with the status and queue their second half; a stopped drive starts to turn, but for Stop, Pause and ID. |
| CdCommands.SecondHalfCompletes | libpcsxcore/cdrom.c:821-872 | The second half raises Complete with the status, in which the motor stands still after Stop and nothing is read after Pause. |
| CdCommands.GivingStopsReading | libpcsxcore/cdrom.c:2266-2279 | A read command, Pause, Init or Reset stops reading and playing when it is given, before it runs. |
| CdCommands.ModesAreTaken | libpcsxcore/cdrom.c:2280-2290 | Setmode takes its parameter; Mute and Demute switch the sound. |
| CdCommands.SeekEndsThere | libpcsxcore/cdrom.c:616-645 | A pending seek ends at the target with Complete and the motor on, and the position of Setloc is used up. |
| CdCommands.PlayGoesThere | libpcsxcore/cdrom.c:727-789 | CdlPlay with a known track goes to the start of that track, without one to the target of Setloc, and plays. |
| CdCommands.PlayingAdvances | libpcsxcore/cdrom.c:616-676 | A play event moves the head by one sector and schedules the next, until the end of the disc. |
| CdCommands.AcknowledgeTakesBits | libpcsxcore/cdrom.c:2337-2390 | The acknowledge write takes exactly the bits written out of the response. |
| CdCommands.SectorIsAnnounced | libpcsxcore/cdrom.c:1362-1392 | A sector handed over raises DataReady unless mode and submode send it to the audio decoder. |
| CdLid.LidEventLowersRank | libpcsxcore/cdrom.c:360-429 | With the lid closed every lid event takes at least one off the number of lid events that are left, with and without a pending seek, and the next one is scheduled. |
| CdLid.DueLidEventsSuffice | libpcsxcore/cdrom.c:360-429 | With no command pending that moves the head or the drive (others and second halves may be) and no read going on behind the open lid, at most five lid events make the drive ready, or six if a seek is pending that turns the disc, whatever else happens in between. |
| CdLid.FiveLidEventsAlone | libpcsxcore/cdrom.c:360-429 | Left alone, a drive that has not noticed the open lid takes exactly five. |
| CdLid.ReadingOnGetsStuck | libpcsxcore/cdrom.c:1280-1296 | A read that goes on behind a shell bit still standing from an earlier opening brings the drive into a state it does not leave, once both halves of a pending command are over. |
| CdLid.RoundStaysStuck | libpcsxcore/cdrom.c:360-429 | In that state a round of lid event, read and acknowledgement comes back to it, because each read sets the disc turning again. |
| CdLid.QuietCommand | libpcsxcore/cdrom.c:711-1197 | A command that moves neither the head nor the drive starts and stops no read and no seek, leaves the drive and the shell bit behind an open lid, never sets the disc turning there, and is followed by nothing but its second half. |
| CdLid.FiveSufficeExactly | libpcsxcore/cdrom.c:360-429 | With no command pending that moves the head or the drive, second halves included, five lid events always suffice if and only if no such read goes on and no seek is pending while the disc turns and the open lid is yet to be noticed. |
| CdLid.SeekGetsInTheWay | libpcsxcore/cdrom.c:616-645 | With such a seek pending there is a run of five lid events after which the drive is not ready: the seek ends when the disc has just come to rest, and sets it turning again. |
| CdLid.ReadsOnDoesArise | libpcsxcore/cdrom.c:360-429 | From every reset a run leads to a read that goes on behind the open lid: the lid opened and closed, a read command, the lid opened again. |
| CdLid.SeekTurnsAgainDoesArise | libpcsxcore/cdrom.c:360-429 | From every reset a run leads to the pending seek: a seek command, and the lid opened before its end. |
| CdMachine.Controller.CdrInterrupt | libpcsxcore/cdrom.c:681-1197 | cdrInterrupt, with the command switch, the repeated command and the not-ready error, on the fields in place, takes the controller to exactly the state of the step the safety and streaming theorems are about. |
| CdMachine.Controller.DoPlay | libpcsxcore/cdrom.c:726-776 | CdlPlay: the pending Setloc, the chosen track, the read at the start, on the fields in place, takes the controller to exactly the state of the step the safety and streaming theorems are about. |
| CdMachine.Controller.DoRead | libpcsxcore/cdrom.c:1098-1147 | CdlReadN and CdlReadS, with the detour to CdlPlay on audio tracks, on the fields in place, takes the controller to exactly the state of the step the safety and streaming theorems are about. |
| CdMachine.Controller.DoStop | libpcsxcore/cdrom.c:825-844 | CdlStop: back to the start of the track, everything stopped, the second half queued, on the fields in place, takes the controller to exactly the state of the step the safety and streaming theorems are about. |
| CdMachine.Controller.CdrReadInterrupt | libpcsxcore/cdrom.c:1280-1444 | cdrReadInterrupt, on the fields in place, takes the controller to exactly the state of the step the safety and streaming theorems are about. |
| CdMachine.Controller.CdrPlayInterrupt | libpcsxcore/cdrom.c:616-679 | cdrPlayInterrupt: the end of a seek, autopause and report, the step of the position, on the fields in place, takes the controller to exactly the state of the step the safety and streaming theorems are about. |
| CdMachine.Controller.CdrLidSeekInterrupt | libpcsxcore/cdrom.c:360-429 | cdrLidSeekInterrupt, on the fields in place, takes the controller to exactly the state of the step the safety and streaming theorems are about. |
| CdMachine.Controller.LidInterrupt | libpcsxcore/cdrom.c:2589-2593 | LidInterrupt, on the fields in place, takes the controller to exactly the state of the step the safety and streaming theorems are about. |
| CdMachine.Controller.ReadTrack | libpcsxcore/cdrom.c:494-551 | ReadTrack with its skip of the sector read last, on the fields in place, takes the controller to exactly the state of the step the safety and streaming theorems are about. |
| CdMachine.Controller.FindCurTrack | libpcsxcore/cdrom.c:431-443 | Find_CurTrack, with its loop over the track list and what that leaves in ResultTD, on the fields in place, takes the controller to exactly the state of the step the safety and streaming theorems are about. |
| CdMachine.Controller.AddIrqQueue | libpcsxcore/cdrom.c:553-568 | AddIrqQueue: a repeated command is remembered, any other replaces the pending one, on the fields in place, takes the controller to exactly the state of the step the safety and streaming theorems are about. |
| CdMachine.Controller.CdrWrite1 | libpcsxcore/cdrom.c:1496-1513 | a command write (its effects continue at lines 2230-2290), on the fields in place, takes the controller to exactly the state of the step the safety and streaming theorems are about. |
| CdMachine.Controller.CdrWrite2 | libpcsxcore/cdrom.c:2306-2325 | a parameter or the interrupt mask, on the fields in place, takes the controller to exactly the state of the step the safety and streaming theorems are about. |
| CdMachine.Controller.CdrWrite3 | libpcsxcore/cdrom.c:2337-2370 | the acknowledge write, and the start of a transfer, on the fields in place, takes the controller to exactly the state of the step the safety and streaming theorems are about. |
| CdMachine.Controller.CdrReset | libpcsxcore/cdrom.c:2499-2517 | cdrReset, on the fields in place, takes the controller to exactly the state of the step the safety and streaming theorems are about. |
| CdMachine.Controller.Dispatch | libpcsxcore/r3000a.c:128-187 | the dispatcher, which removes an event before its handler runs, on the fields in place, takes the controller to exactly the state of the step the safety and streaming theorems are about. |
| CdMachine.Controller.constructor | libpcsxcore/cdrom.c:2499-2517 | A controller starts as a reset leaves it, with nothing pending unscheduled. |
| CdMachine.Controller.Perform | libpcsxcore/cdrom.c:205-254 | Any step, in place: pending work stays scheduled, and a response stays unless the step may acknowledge it. |
| CdMachine.Controller.Follow | libpcsxcore/cdrom.c:205-254 | Any run, in place: the controller ends where the run of the model does, with its work scheduled, and a response that nothing on the way could take away is still there. |
| CdMachine.Controller.CdrRead1 | libpcsxcore/cdrom.c:1482-1494 | A read of the response gives its bytes in order and does not change them; the response is used up at its size. |
| ChdTable.BuildTable | libpcsxcore/cdriso.c:1104-1151 | The loop of handlechd builds the table of the longest acceptable prefix of the metadata. |
| ChdTable.TableIsWellFormed | libpcsxcore/cdriso.c:1104-1151 | For every track list the sector and frame ranges are disjoint and increasing and frames start on multiples of four; every track starts at its INDEX 01. |
| ChdTable.TracksFollowOn | libpcsxcore/cdriso.c:1104-1151 | INDEX 01 of each track comes a pregap after the end and postgap of the track before, whether the pregap is stored or not; a stored pregap counts to the track as far as it has frames; frames begin at the next multiple of four. |
| ChdTable.LocateIsTheMap | libpcsxcore/cdriso.c:1337-1364 | A sector inside a track is its frame; one in a gap before a later track reads as zeros; one past the last track fails. |
| ChdTable.MapIsIncreasing | libpcsxcore/cdriso.c:1337-1364 | The map from sectors to frames is strictly increasing, hence one-to-one. |
| ChdTable.MapIsOntoStoredFrames | libpcsxcore/cdriso.c:1337-1364 | It reaches a frame if and only if the frame is stored. |
| ChdTable.Sec2MsfFields | libpcsxcore/cdriso.c:163-169 | What sec2msf stores in its three chars, for every sector number. |
| ChdTable.MsfRoundTrip | libpcsxcore/cdriso.c:156-169 | msf2sec undoes sec2msf if and only if the number is below 128 minutes, where the minutes still fit a char. |
| Common.BcdRoundTrip | libpcsxcore/cdrom.h:36-37 | btoi undoes itob up to 159. |
| ChdImage.DataPathAddressesTheSector | libpcsxcore/cdriso.c:1671-1688 | The data path, given a BCD time, asks for the sector of that time. |
| ChdImage.AudioPathAddressesTheSector | libpcsxcore/cdriso.c:1775-1821 | The audio path asks for the same sector, whichever track it selects and however its pregap is stored. |
| ChdImage.Reader.CdreadChd | libpcsxcore/cdriso.c:1337-1379 | After any history of reads, failed hunk loads included, a read that succeeds returns what the backing image holds for the sector, zeros in gaps; it fails on such a sector only if a hunk had to be loaded and was not. |
| ChdImage.FrameIsInTheImage | libpcsxcore/cdriso.c:1365-1379 | Frames are every 2448 bytes of the image, hunk after hunk, and are the first 2352 of those. |
| ChdImage.TrackHoldsItsFrames | libpcsxcore/cdriso.c:1337-1379 | Sector n of a track holds frame n of those stored for it, byte by byte. |
| ChdImage.GapsAreSilent | libpcsxcore/cdriso.c:1337-1364 | A sector between tracks reads as zeros; one before or behind them cannot be read. |
| ChdImage.SamplesAreExchanged | libpcsxcore/cdriso.c:1810-1818 | The exchange takes the two bytes of every sample for each other. |
| ChdImage.Reader.Fetch | libpcsxcore/cdriso.c:1367-1373 | The buffer holds the hunk that current_hunk names, or current_hunk is -1, also after a failed load that left anything in the buffer. |
| ChdImage.Reader.IsoReadTrack | libpcsxcore/cdriso.c:1671-1688 | A data read returns the content of the sector of its BCD time. |
| ChdImage.SelectTrack | libpcsxcore/cdriso.c:1782-1789 | The track taken starts at or before the position, or is the first, and every later track starts behind it. |
| ChdImage.Reader.FindTrack | libpcsxcore/cdriso.c:1782-1789 | The downward search, as a loop, ends with that track. |
| ChdImage.Reader.IsoReadCdda | libpcsxcore/cdriso.c:1775-1821 | An audio read returns the byte-exchanged content of the very sector that ISOreadTrack addresses for the same time in BCD; data tracks and failures are silent. |
| CheatText.ValueOfPrint | libpcsxcore/cheat.c:169-172 | The fixed-width hex that is printed has the value it was printed from. |
| CheatText.PrintedIsScanned | libpcsxcore/cheat.c:132-135 | sscanf reads a printed number back and stops right behind it. |
| CheatText.LineIsRead | libpcsxcore/cheat.c:79-84 | A line that fits into 254 characters is read as a whole, also where its newline no longer fits and comes as a line of its own. |
| CheatText.SavedIsRead | libpcsxcore/cheat.c:152-181 | Cheats that survive are read back from the saved text in order, after whatever was read before. |
| CheatText.ReadIsStorable | libpcsxcore/cheat.c:64-147 | Whatever the file, every cheat read from it is one that survives saving and loading. |
| CheatText.RoundTripExactly | libpcsxcore/cheat.c:64-181 | Loading what was saved gives back the same descriptions, enabled bits and codes in order if and only if every description is one line of at most 251 characters (252 if disabled) that does not look enabled when it is not. |
| CheatFormat.DigitAt | libpcsxcore/cheat.c:169-172 | Digit k from the end of a printed number is the number over 16^k modulo 16, in capitals. |
| CheatFormat.Digits | libpcsxcore/cheat.c:132-135 | Digits are read in either case. |
| CheatFormat.FileOfOne | libpcsxcore/cheat.c:152-181 | The file of one cheat with one code, character by character. |
| CheatFormat.CommentsAreSkipped | libpcsxcore/cheat.c:79-84 | Lines that begin with #, ;, / or a quote, and empty ones, are passed over. |
| CheatFormat.HeadsBeginCheats | libpcsxcore/cheat.c:86-115 | A line in brackets begins a cheat, which is on if a star follows the bracket. |
| CheatFormat.PrefixesAreRead | libpcsxcore/cheat.c:132-135 | Numbers may have a sign or the prefix 0x. |
| CheatFormat.LinesAreCodes | libpcsxcore/cheat.c:340-372 | The codes written down line by line for AddCheat and EditCheat are the codes read, in order, if their addresses are above 0x10000000. |
| CheatFormat.LineIsCode | libpcsxcore/cheat.c:340-372 | A line with a code counts exactly if its address is above 0x10000000. |
| CheatStore.RunKeepsRanges | libpcsxcore/cheat.c:326-470 | Over every sequence of adds, edits, removals and loads the code ranges stay inside the arena and pairwise disjoint. |
| CheatStore.AddIsSeen | libpcsxcore/cheat.c:326-397 | An added cheat is at the end, disabled, with just the codes of its text; the others read as before. |
| CheatStore.EditIsSeen | libpcsxcore/cheat.c:412-470 | An edited cheat keeps its place and enabled bit and has just the new codes; the others read as before. |
| CheatStore.RemoveIsSeen | libpcsxcore/cheat.c:399-410 | A removal takes out exactly one cheat. |
| CheatStore.SaveLoadExactly | libpcsxcore/cheat.c:64-181 | A store that is saved and loaded says the same, in a well-formed arena, if and only if every cheat survives the file. |
| CheatUndo.PlayChangesTouched | libpcsxcore/cheat.c:184-324 | A cheat of any codes (slides, copies, conditions and skips included) changes no byte but those its codes can be seen to reach. |
| CheatMeaning.SingleCode | libpcsxcore/cheat.c:217-244 | A cheat of one code, byte by byte: constant writes store their value, increments and decrements add to or subtract from the byte or halfword modulo its width, and nothing else changes. |
| CheatMeaning.ComparisonDecides | libpcsxcore/cheat.c:275-315 | A comparison and a constant write behind it: for all eight kinds the write is made if and only if the comparison holds of the bytes in memory, and otherwise memory stays. |
| CheatMeaning.SlideWritesTheSeries | libpcsxcore/cheat.c:246-269 | Write k of a slide leaves its value plus k steps at its place plus k strides, for both widths and signed steps, as long as the places stay in memory and apart. |
| CheatMeaning.CopyArrives | libpcsxcore/cheat.c:271-280 | The bytes of a copy arrive, unless the target begins inside the source. |
| CheatMeaning.OneCheatPass | libpcsxcore/cheat.c:184-324 | With one cheat a pass is the turn of that cheat. |
| CheatUndo.DecrementUndoesIncrement | libpcsxcore/cheat.c:230-236 | The 16-bit increment and decrement of the same value undo each other, wrap-around included. |
| CheatUndo.ByteDecrementUndoesIncrement | libpcsxcore/cheat.c:238-244 | So do the 8-bit ones, whose value is cut to a byte first. |
| CheatUndo.FirstPassRemembers | libpcsxcore/cheat.c:203-211 | At the first pass of any cheat a code that is run remembers the memory it finds; one that is passed over keeps its old value. |
| CheatUndo.LastPassRestores | libpcsxcore/cheat.c:212-228 | The pass after a cheat was switched off leaves, in every byte that constant writes cover, what the last of them remembers. |
| CheatUndo.UndoneByte | libpcsxcore/cheat.c:184-324 | Switched on for a pass and off again, any cheat leaves in such a byte what the last of those codes found there, if it was run, and otherwise its old value, whatever that is. |
| CheatUndo.ByteIsUndoneExactly | libpcsxcore/cheat.c:184-324 | For any cheat and memory, a byte that constant writes cover is put back whatever the old values were, if and only if the last of those codes is run and finds what was there at the start. |
| CheatUndo.ElsewhereIsUndoneExactly | libpcsxcore/cheat.c:184-324 | A byte that no constant write covers is not put back at all: increments, slides and copies stay, so it is right afterwards if and only if the first pass left it right. |
| CheatUndo.FollowerIsNotUndone | libpcsxcore/cheat.c:246-322 | A constant write right behind any slide, copy or comparison that fails at the first pass is not undone: its old value is written, whatever that is. |
| CheatUndo.ConstantsAreUndoneExactly | libpcsxcore/cheat.c:184-230 | A cheat of constant writes puts every memory back if and only if no two of its codes write to the same byte. |
| CheatRuns.UnreachedStays | libpcsxcore/cheat.c:184-324 | Over every run a byte that no cheat can reach changes only by the hand of the game. |
| CheatRuns.RunKeepsTrack | libpcsxcore/cheat.c:184-324 | Over every run of passes, switches of any cheat and writes by the game elsewhere, a byte of a cheat of constant writes is as it was or remembered, or what the earlier codes of the cheat made of it. |
| CheatRuns.SwitchedOffByte | libpcsxcore/cheat.c:184-324 | What is left of such a byte after any run, with the cheat switched off and one more pass, overlapping codes included. |
| CheatRuns.SwitchingOffUndoes | libpcsxcore/cheat.c:184-324 | After any such run, switched off and with one more pass, every byte of a cheat without overlap is as it was at the start. |
| CheatRuns.UndoneExactly | libpcsxcore/cheat.c:184-324 | A cheat of constant writes to bytes of its own is put back over every run and from every memory, if and only if no two of its codes write to the same byte. |
| CheatRuns.ChangesNothingElse | libpcsxcore/cheat.c:184-324 | In its own turn of a pass such a cheat changes no byte but those it writes to. |
| CheatRuns.EditIsSafeExactly | libpcsxcore/cheat.c:412-470 | The first pass after an edit, with the cheat switched off, leaves memory alone whatever the new old values are, if and only if the cheat was not on at the last pass or the new codes hold no constant write. |
| CheatRuns.OldBytesAreLeft | libpcsxcore/cheat.c:412-470 | After an edit the bytes that only the old codes wrote to keep what is there, through every run: they are never put back. |
| CheatMachine.TrimInPlace | libpcsxcore/misc.c:1695-1713 | trim, within its buffer, leaves the string without the blanks at both ends. |
| CheatMachine.Fgets | libpcsxcore/cheat.c:79-80 | The buffer holds the next chunk of the file, up to a newline or 254 characters. |
| CheatMachine.CheatTable.LoadCheats | libpcsxcore/cheat.c:64-147 | The loop over lines, with lengths filled in late, lays out what the file says. |
| CheatMachine.CheatTable.SaveCheats | libpcsxcore/cheat.c:152-181 | The nested loops print the text of the store's view. |
| CheatMachine.CheatTable.AddCheat | libpcsxcore/cheat.c:326-397 | AddCheat with its loop over lines; -1 exactly when the text holds no code, and then nothing changes. |
| CheatMachine.CheatTable.EditCheat | libpcsxcore/cheat.c:412-470 | EditCheat likewise. |
| CheatMachine.CheatTable.RemoveCheat | libpcsxcore/cheat.c:399-410 | The shift of the later cheats removes exactly the one named. |
| CheatMachine.CheatTable.ApplyCheats | libpcsxcore/cheat.c:184-324 | The interpreter loop, in place on RAM and old values, is the pass that the undo theorem is about. |
| CheatMachine.CheatTable.SlideCodes | libpcsxcore/cheat.c:246-269 | The slide loop, with its signed steps and wrap-around. |
| CheatMachine.CheatTable.CopyBytes | libpcsxcore/cheat.c:271-280 | The copy loop, byte by byte upwards, overlap included. |
| Breakpoints.RunKeepsNumbered | libpcsxcore/debug.c:259-279 | Along every run of commands numbers strictly increase along the list, so a number names at most one breakpoint. |
| Breakpoints.OthersAreKept | libpcsxcore/debug.c:281-294 | A command changes nothing about the breakpoints it does not name; a delete takes out exactly the named one. |
| Breakpoints.AddedIsFound | libpcsxcore/debug.c:259-309 | The number given to a new breakpoint was free and finds it. |
| Breakpoints.NumberComesBackExactly | libpcsxcore/debug.c:259-294 | A deleted number is given to the next breakpoint if and only if it was the largest and followed on the one before it. |
| Breakpoints.BreakpointList.Add | libpcsxcore/debug.c:259-279 | The new node is linked in at the end of the circle; the circle stays a circle both ways. |
| Breakpoints.BreakpointList.Delete | libpcsxcore/debug.c:281-294 | The node is unlinked in both directions; exactly it leaves the list, also when it is the first or the last one. |
| Breakpoints.BreakpointList.Next | libpcsxcore/debug.c:296-298 | The node after, or null at the end. |
| Breakpoints.BreakpointList.FindNumber | libpcsxcore/debug.c:300-309 | The search ends and finds the breakpoint of that number, or null if there is none. |
| Breakpoints.BreakpointList.List | libpcsxcore/debug.c:914-916 | Iteration from `first` visits every breakpoint once, in order, and ends. |
| Breakpoints.BreakpointList.Check | libpcsxcore/debug.c:1082-1089 | A hit is reported if and only if some breakpoint matches, and it is the first that does. |
| Breakpoints.BreakpointList.DeleteEvery | libpcsxcore/debug.c:341 | Deleting the first until none is left ends with an empty list. |
| Breakpoints.Serve | libpcsxcore/debug.c:907-1030 | The list on the heap after any run of commands holds what the commands say. |
| AutosaveRing.NewestIsNewest | libpcsxcore/misc.c:1519-1533 | The snapshot attributed to a slot is the newest of those that went into it. |
| AutosaveRing.OldestIsKept | libpcsxcore/misc.c:1109-1126 | After n saves the slot that the counters pick holds snapshot n - min(n, 6), and no slot holds an older one. |
| AutosaveRing.SaveIsKept | libpcsxcore/misc.c:1305-1316 | One more save replaces exactly the oldest slot and moves the label as stated. |
| AutosaveRing.LabelStaysKnown | libpcsxcore/misc.c:1208-1236 | A label known at the reset stays known, so that with autosave on no later look at a disc replaces it. |
| AutosaveRing.LabelIsRightExactly | libpcsxcore/misc.c:1208-1236 | After every save the label is the id stored with the snapshot a file would be written from, if and only if, whenever the stored id changes, the new one is that of the disc in the drive five saves later; saves without a known disc are included. |
| AutosaveRing.LabelCanBeWrong | libpcsxcore/misc.c:1208-1236 | Three discs within seven saves: the snapshot written next carries the id of the second disc, and is filed under the first. |
| AutosaveRing.Ring.CheckCdrom | libpcsxcore/misc.c:834-839 | A look at a disc sets the label exactly if autosave is off or the disc before is not fully known; before the first save, or with autosave on and a known start, the ring stays as the theorems have it. |
| AutosaveRing.Ring.Sync | libpcsxcore/misc.c:1519-1533 | After every save slot j holds the newest snapshot numbered j mod 6, and the slot that SetCdromId looked at in the middle is the one SaveStateWork would write right after. |
| AutosaveRing.Ring.SetCdromId | libpcsxcore/misc.c:1208-1236 | The slot inspected, from the counters before the save, and when the id changes. |
| AutosaveRing.Ring.SaveStateWork | libpcsxcore/misc.c:1101-1145 | The snapshot written is number n - min(n, 6); it is refused exactly when there is none, or fewer than six in a resumed game; if the discs stay, the label is its id. |
| AutosaveRing.Ring.LoadState | libpcsxcore/misc.c:1611-1616 | A loaded state forgets the snapshots if autosave is on, and counts the game as resumed. |

## Left out

- Frontends, plugins, threads, network, files and zlib: plumbing. File and hunk reads are parameters that may fail.
- Title-specific branches and scene tables in cdrom.c: the title is fixed to none.
- CdLid.FiveSufficeExactly: a pending Play, Read, Stop, Seek or Reset counts as a command yet to be given.
- A disc that is changed in the middle of a stream.
- AutosaveRing.Ring.CheckCdrom: labels that it replaces between saves (autosave switched off in between, or nothing
  known at the reset) are outside the theorems about labels.
- When an event fires: only that it is scheduled. In particular the length of the read interval.
- Disc-change detection (CheckDiscChange) and the SBI tables in cdrom.c.
- CdMachine.Controller.ReadTrack: what reading a position does to the sub-channel data (CheckSBI, the disc's own data,
  generate_subq) is an arbitrary function of the position and of what was there; so are the patches, the license text,
  and whether the audio decoder accepts a sector.
- CdMachine.Controller.CdrLidSeekInterrupt: the check of the new disc (CheckCdrom) when the lid closes is left out.
- CdMachine.Controller.CdrWrite1: the volume bank and disc-change detection are left out.
- CdMachine.Controller.CdrWrite2: the volume banks are left out.
- CdMachine.Controller.CdrWrite3: the volume latch and the offset at which a transfer starts are left out.
- CdMachine.Controller.CdrReset: the volume registers and the transfer position are left out.
- CdMachine.Controller.Dispatch: an event may be dispatched at any time while it is scheduled; when it is due is left out.
- cdrRead0, cdrRead2, cdrRead3, the volume registers and the copying of DMA channel 3, apart from its rescheduling
  of CDREAD.
- Save states of the controller and of the motion decoder (cdrFreeze, mdecFreeze).
- The black-and-white mode of the motion decoder, and a change of colour depth in the middle of a block.
- Output transfers smaller than the pending leftover, which the source marks as unfinished (mdec.c:572).
- An output transfer that overwrites the coded input: input and output memory are separate here.
- MdecDma.Mdec.Dma1: block counts are unbounded, so products beyond 32 bits do not wrap; the output interrupt it
  schedules, and when that fires, are not modelled.
- MdecDma.Mdec.Dma0: the release of DMA channel 0 and the input interrupt are not modelled.
- MdecDma.Mdec.OutputInterrupt: the release of the two DMA channels is not modelled.
- GTE: SXYP, IRGB, ORGB, LZCS, LZCR and the upper halves of 16-bit registers; register moves are arbitrary functions
  of the modelled registers. On ARM the flags of A1U, A2U and A3U are not raised.
- DIVIDE is any function of its two operands.
- FLAG of gteDPCS_part_noshift, which checks bounds before the shift; and the remaining part functions, which are
  the monolithic operations cut in two.
- ChdTable.BuildTable: sector and frame counts are unbounded, so 32-bit wrap-around is not modelled; track lengths and
  the kind of subcode are not stored.
- ChdImage.Reader.CdreadChd: the subcode buffer of images with subcode is not modelled.
- The text parsers for CUE, TOC, CCD and MDS, the PBP and CBN images, and subcode in CHD frames.
- An external pregap offset, which CHD images do not have.
- CheatText.ScanHex: sscanf follows the C standard with a 32-bit long; library extensions are not modelled.
- CheatEngine.Read16: a 16-bit access is in little-endian order, as the source has it after its byte swaps.
- CDR_getBuffer never returns NULL: a sector that cannot be read is a read error.
- A cheat file that cannot be opened: LoadCheats and SaveCheats then do nothing.
- Cheat search, and the other loader of cheat files in the frontend.
- Breakpoints.BreakpointList.Add: numbers are unbounded; malloc does not fail and freed nodes are not reused.
- The debugger's sockets, its text replies, its memory map and the disassembler.
- What a snapshot contains, and the labels and paths that travel with its id.
- decode_xa.c: the predictor state is carried without bound, and what remains is indexing.
