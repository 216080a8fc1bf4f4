# UberSDR client: proofs about its protocol decoder, its DSC receiver and their small cores

This project models, in Dafny 4.11, the parts of the UberSDR client whose mistakes would not show as errors, and proves
what the rest of the program takes for granted about them.

**The audio protocol, version 4** (`src/pcm_v4.hpp`). The codec is backward-adaptive: both ends hold sign-sign LMS
filters that predict every sample, only Rice-coded residuals are sent, and no coefficient ever is. The main theorem is
lockstep over whole connections: whatever packets a server sends, the decoder returns exactly its samples and stands
exactly where the server stands. `StreamModel` states it on values, `Lockstep` proves its core for any stages whose two
directions undo each other, and the classes `PCMv4StreamDecoder`, `PredictiveCodec`, `ComplexStage`, `RealStage` and
`PCMv4HeaderDecoder` are proved against those values: int32 taps with a switch to int64 in mid-stream, a skipped clamp,
sliding buffers, cached signs, wrapping sums, vector lanes and a refilled bit accumulator are all shown to be the one
simple filter and the one plain bit list. What that filter itself remembers, predicts and learns is said in
`FilterLaws`, and what the bytes mean in `Headers.FullPacket` and `Rice.CodewordLayout`. The server is not in the
repository; its side is a specification that runs the filters forward and writes the layout documented in the source.

**The DSC receiver** (`src/dsc_rx.cpp`, `src/dsc_decoder.cpp`, `checkECC`), Annex 1 of ITU-R M.493-15. From decisions
on the demodulated level to a message: clock recovery, the hunt for the phasing sequence, ten-bit symbols, the two
copies of every character, the end of sequence and the check character. `ClockRecovery.CallsReceived` goes all the way,
for any number of calls.

**Small cores.** SHA-1 with rotating registers and the WebSocket accept value, the table-driven UTF-8 validator, the
folded FIR filter and the cached moving maximum, each against its standard or its simple form; `AcceptExample` computes
the example of RFC 6455.

Three things came out differently from what one would expect of the code, and are stated as theorems. A transmission
without any damage is reported with two errors, since two phasing symbols are compared one position late
(`DscDecoders.CleanErrors`, `DscReceivers.UndamagedCall`). A completed call leaves the bit clock one whole bit below
its range, since the reset happens before the clock steps back (`ClockRecovery.TickRange`,
`ClockRecovery.CallLosesABit`); that costs at most one bit (`ClockRecovery.AtMostOneBitLost`). The check character
does not cover the first character, so losing both copies of that one goes unnoticed (`DscEcc.LostSymbolNoticed`).

Files follow the program: one module for each class or component, and `Machine` and `Bitwise` for machine integers and
bit operators. Signed arithmetic that must not overflow goes through `I32` and `I64`, whose preconditions are the
proofs that it does not; unsigned and narrowing arithmetic goes through `Wrap` functions. A class is tied to its
specification by an abstraction function (`Denote`, `Now`) or by what it has heard (`heard`, `seen`, `pushed`), and
loop bodies with much to prove are methods of their own.

## Model

| member | source | states |
|---|---|---|
| StreamModel.StreamLockstep | src/pcm_v4.hpp:1415-1466 | for every sequence of packets a server may send (coded, escaped, silent, scaled, in any order and with any changes of profile), decoding what was encoded returns every packet's samples and header, and the decoder ends with exactly the server's header state, taps and histories, although no coefficient was ever sent |
| StreamModel.ConnectionLockstep | src/pcm_v4.hpp:1393-1401 | the same from the start of a connection, where both ends are freshly reset |
| StreamModel.PacketBack | src/pcm_v4.hpp:1415-1466 | one packet: whatever state the two ends share, decoding the encoded packet gives the samples sent (shifted back up and saturated on the scaled profile) and leaves the state the server is in |
| StreamModel.IqNeverEscapes | src/pcm_v4.hpp:730-733 | after any packets from the start of a connection, any IQ packet of int16 samples can be sent coded with any Rice parameter: no prediction passes 2^28, every residual fits 30 bits with its sign and every zigzag a uint32, so an IQ server never needs an escape to be correct |
| StreamModel.RunStaysTame | src/pcm_v4.hpp:730-733 | whatever a server sends over a run of packets, its IQ filter has seen int16 samples only |
| StreamModel.IqAlwaysCodable | src/pcm_v4.hpp:730-733 | from a state whose IQ filter has seen int16 samples only, any IQ packet of int16 samples can be sent coded with any Rice parameter |
| StreamModel.TameKept | src/pcm_v4.hpp:730-733 | every packet a server sends keeps the IQ filter in the states for which that holds |
| StreamModel.RestoreSample | src/pcm_v4.hpp:1472-1490 | a restored sample is the int16 nearest to the one sent, scaled by the shift: it is that if and only if it fits, and otherwise saturated on its own side of zero |
| StreamModel.ShiftComesFirst | src/pcm_v4.hpp:1433-1458 | on the scaled profile, and on no other, the byte before the body is the shift, refused above 15 |
| StreamDecoders.PCMv4StreamDecoder.Decode | src/pcm_v4.hpp:1415-1466 | one call: result, samples and the whole new state are those of the packet specification, on success and on every error path, and int32 state stays int32 on packets that reconstruct within int32 |
| StreamDecoders.PCMv4StreamDecoder.Reset | src/pcm_v4.hpp:1397-1401 | a reset decoder is the initial stream state |
| StreamDecoders.LossyRestore | src/pcm_v4.hpp:1481-1490 | the loop that undoes the shift saturates every sample |
| StreamDecoders.SentStaysNarrow | src/pcm_v4.hpp:606-608 | a packet a server sends never reconstructs a sample outside int32 |
| StreamDecoders.Receive | src/pcm_v4.hpp:1393-1466 | a fresh decoder, fed everything a server run sends, returns every packet's samples and header, ends in the server's state, and never leaves int32 |
| CodecModel.BodyBack | src/pcm_v4.hpp:1269-1345 | decoding an encoded body gives the samples back and moves the filters as the server's moved, for coded, escaped and silent bodies |
| CodecModel.CodedBack | src/pcm_v4.hpp:1314-1344 | the coded case: Rice bits, residual frames, the cascade inverted in reverse order, and the truncation to int16 together undo the server's side |
| CodecModel.EscapeBack | src/pcm_v4.hpp:1293-1311 | the escape case: verbatim little-endian samples come back and the filters still advance over them |
| CodecModel.EscapeLayout | src/pcm_v4.hpp:1303-1309 | an escaped sample is two bytes, the low one first, as a signed word |
| CodecModel.StageBack | src/pcm_v4.hpp:307-336 | the two directions of every stage undo each other and leave the same taps and history |
| CodecModel.Profiles | src/pcm_v4.hpp:1219-1252 | a change of profile gives fresh filters: one complex one of order 16 and step 16 for ids 0 and 2, real ones of orders 8, 8, 4, 2 and steps 16, 16, 32, 32 for id 1, and an error for any other id |
| CodecModel.TamePrediction | src/pcm_v4.hpp:730-747 | on int16 history and clamped taps of order 16 both complex sums fit well inside int64 and the prediction is at most 2^28 in magnitude |
| CodecModel.TameForward | src/pcm_v4.hpp:310-321 | hence each residual component is at most 2^28 + 2^15, its zigzag fits 32 bits, and the filter stays so |
| CodecModel.ComplexAlwaysCodable | src/pcm_v4.hpp:1225-1235 | hence every int16 packet of the complex profile is codable with every parameter, and leaves the codec so |
| Lockstep.CascadeBack | src/pcm_v4.hpp:1326-1333 | for any stages whose directions undo each other: undoing the stages last-to-first returns the value, and every stage ends where the forward pass left it |
| Lockstep.PacketBack | src/pcm_v4.hpp:1321-1345 | the same over a whole packet of values |
| Lockstep.CascadeSplits | src/pcm_v4.hpp:1363-1374 | a value goes through the first stages of a cascade, and what leaves them through the others |
| Lockstep.CascadeOfOne | src/pcm_v4.hpp:1363-1374 | a cascade of one stage is that stage |
| Lockstep.RunSplits | src/pcm_v4.hpp:1363-1374 | where packets are cut makes no difference to the residuals or to the stages |
| PredictiveCodecs.PredictiveCodec.Configure | src/pcm_v4.hpp:1218-1256 | the stages are rebuilt exactly when the profile changes; an unknown profile is refused and remembered as none |
| PredictiveCodecs.PredictiveCodec.AdvanceSilence | src/pcm_v4.hpp:1269-1281 | a silent packet moves the filters over that many zeros, and a count that is no whole number of frames is refused with nothing changed |
| PredictiveCodecs.PredictiveCodec.DecodeBody | src/pcm_v4.hpp:1285-1345 | every branch gives the specified samples, error and filters, whether the block kernel or the per-frame loop ran |
| PredictiveCodecs.PredictiveCodec.BlockSamples | src/pcm_v4.hpp:1323 | when the block kernel runs it equals inverting the one-stage cascade frame by frame; when it cannot, nothing has changed |
| PredictiveCodecs.PredictiveCodec.InverseEach | src/pcm_v4.hpp:1324-1344 | the per-frame loop equals the run of the specification, in both profiles |
| PredictiveCodecs.PredictiveCodec.FollowSamples | src/pcm_v4.hpp:1305-1310 | known samples move the filters exactly as the encoder's |
| PredictiveCodecs.PredictiveCodec.BeginPacket | src/pcm_v4.hpp:1352-1355 | the per-packet decision changes no filter and prepares every stage for the packet |
| PredictiveCodecs.PredictiveCodec.ForwardFrame | src/pcm_v4.hpp:1360-1372 | one frame through the cascade forward moves every stage as the specification does |
| PredictiveCodecs.RealInverse | src/pcm_v4.hpp:1341 | the real cascade is undone last stage first |
| PredictiveCodecs.SingleStage | src/pcm_v4.hpp:1323 | running one complex stage over residuals is running the one-stage cascade over frames |
| ComplexStages.ComplexStage.Forward | src/pcm_v4.hpp:310-321 | whenever the residual fits int64, forward is that of the reference filter that always clamps and sums without bound, and the stage goes wide exactly on the first sample outside int32 |
| ComplexStages.ComplexStage.Inverse | src/pcm_v4.hpp:325-336 | inverse likewise, whenever the sample fits int64 |
| ComplexStages.ComplexStage.InverseBlock | src/pcm_v4.hpp:346-370 | for AVX2 and NEON lanes alike, every residual sequence gives the same int16 samples and the same taps and history as inverting frame by frame, also when a sample leaves int32 in mid-packet; it runs exactly for order 16, int32 and a vector unit, and otherwise changes nothing |
| ComplexStages.BlockLoop | src/pcm_v4.hpp:408-508 | the register loop stands, after each frame, where the per-frame run stands, and stops only before a frame whose sample leaves int32 |
| ComplexStages.BlockFrame | src/pcm_v4.hpp:512-602 | one frame in registers is one frame of the reference filter |
| ComplexStages.ComplexStage.BeginPacket | src/pcm_v4.hpp:290-305 | no filter changes; the clamp will be skipped only when no step of the packet can reach the limit |
| ComplexStages.ComplexStage.GoWide | src/pcm_v4.hpp:797-803 | switching to int64 keeps the filter that the stage stands for |
| ComplexStages.ComplexStage.Push | src/pcm_v4.hpp:797-816 | the linear window always shows the last samples pushed, across slides and across the switch |
| ComplexStages.AdaptTaps | src/pcm_v4.hpp:759-788 | the int32 update, clamped or not, is the reference's clamped int64 one on every tap |
| ComplexStages.PredictSums | src/pcm_v4.hpp:734-747 | the int32 by int32 products summed in int64 are the exact sums, without overflow |
| ComplexStages.Wide.Forward | src/pcm_v4.hpp:643-650 | the int64 stage, summing through wrapping unsigned words, is the reference filter on every sample whose residual fits int64 |
| ComplexStages.Wide.Inverse | src/pcm_v4.hpp:652-659 | and its inverse is the reference's on every residual whose sample fits int64 |
| ComplexStages.Wide.Load | src/pcm_v4.hpp:611-628 | the int64 stage takes over the same filter, with the cached signs those of its history |
| ComplexStages.Wide.Push | src/pcm_v4.hpp:661-677 | history and cached signs slide together |
| ComplexStages.Wide.Predict | src/pcm_v4.hpp:680-696 | unsigned wrap-around gives the exact sum modulo 2^64 |
| ComplexStages.Wide.Adapt | src/pcm_v4.hpp:698-721 | the update from cached signs, clamped or not, is the reference's clamped one, and the fast path keeps its headroom |
| RealStages.RealStage.Forward | src/pcm_v4.hpp:853-859 | the real stage is the reference real filter forward, on every sample whose residual fits int64 |
| RealStages.RealStage.Inverse | src/pcm_v4.hpp:861-867 | and inverse, on every residual whose sample fits int64 |
| RealStages.RealStage.BeginPacket | src/pcm_v4.hpp:844-851 | no filter changes; the clamp will be skipped only when no step of the packet can reach the limit |
| RealStages.RealStage.Push | src/pcm_v4.hpp:893-905 | history and cached signs slide together |
| Histories.DecideFast | src/pcm_v4.hpp:290-305 | the clamp is skipped if and only if every tap starts further from the limit than all the steps of the packet together can move it |
| Histories.PushedWindow | src/pcm_v4.hpp:797-816 | a push into the sliding buffer shows the old window less its oldest sample, with the new one, wherever the index stands |
| Histories.PushedSigns | src/pcm_v4.hpp:661-677 | cached signs stay the signs of the buffer through a push |
| Predictor.ComplexHeadroom | src/pcm_v4.hpp:282-305 | one complex update moves a tap at most 2*mu away from zero, so taps with that much room keep the rest of it |
| Predictor.ComplexNudge | src/pcm_v4.hpp:754-787 | the step is at most 2*mu and the leak never adds to a tap's magnitude |
| Predictor.PredictionBound | src/pcm_v4.hpp:681-697 | no prediction passes 2^47, whatever the taps and the history, so int32 samples and residuals always fit int64 in both directions |
| Predictor.ComplexDescent | src/pcm_v4.hpp:749-757 | what the step adds to a tap moves the prediction along the signs of the error by mu times the magnitudes of the history: the conjugate and every sign are such that no step moves it away from the sample |
| Predictor.RealDescent | src/pcm_v4.hpp:879-890 | and so for the real filter |
| Predictor.RealNudge | src/pcm_v4.hpp:843-851 | for the real filter the bound is mu |
| FilterLaws.SentIsRemembered | src/pcm_v4.hpp:310-321 | whatever it was, the complex filter ends with the latest frames that went forward through it, I in one part of its history and Q in the other |
| FilterLaws.ReceivedIsRemembered | src/pcm_v4.hpp:325-336 | and in the other direction with the latest frames it gave |
| FilterLaws.RealSentIsRemembered | src/pcm_v4.hpp:853-859 | the real filter likewise, forward |
| FilterLaws.RealReceivedIsRemembered | src/pcm_v4.hpp:861-867 | and inverse |
| FilterLaws.SingleTap | src/pcm_v4.hpp:734-747 | a single tap of a + bi, in units of 65536, predicts the complex product of a + bi and its place of an int32 history, exactly |
| FilterLaws.Carrier | src/pcm_v4.hpp:267-269 | so the newest imaginary tap alone turns the last frame by a quarter: the prediction of (x, y) is (-y, x) |
| FilterLaws.RealSingleTap | src/pcm_v4.hpp:870-877 | a single real tap predicts that many times its place of the history |
| FilterLaws.FirstAsIs | src/pcm_v4.hpp:310-336 | a new filter sends its first frame as it is, and takes it as it comes |
| FilterLaws.ComplexStepLearns | src/pcm_v4.hpp:749-787 | a complex step that meets no limit moves both sums toward the sample, on the history it was made from: by mu times the magnitudes of that history for each part of the residual that is not zero, beside the leak |
| FilterLaws.NudgeParts | src/pcm_v4.hpp:749-754 | the parts of the residual teach apart, each by at most mu a tap, and a silent part of the history teaches nothing |
| FilterLaws.NudgeGain | src/pcm_v4.hpp:749-754 | each part moves its own part of the prediction by the most that allows, so there is only one such nudge |
| FilterLaws.ComplexStepRests | src/pcm_v4.hpp:756-760 | without a residual no tap moves or leaks, and a tap whose place of the history is silent only leaks |
| FilterLaws.StepIsNearest | src/pcm_v4.hpp:775-787 | every tap ends at what it leaked to plus its nudge, or as near to that as the limit of 2^24 lets it |
| FilterLaws.RealStepLearns | src/pcm_v4.hpp:879-891 | the real step moves the prediction toward the sample for residuals of either sign, by mu times the magnitudes of the history, beside the leak |
| FilterLaws.RealStepRests | src/pcm_v4.hpp:879-891 | and rests in the same two cases |
| FilterLaws.RealStepIsNearest | src/pcm_v4.hpp:889-890 | with the same limit |
| FilterLaws.Leaks | src/pcm_v4.hpp:212-221 | a tap leaks a 16384th of itself in the complex filter and a 65536th in the real one, toward zero and never across it |
| Predictor.PredRoundShift | src/pcm_v4.hpp:203-210 | division by 2^16 to nearest with ties away from zero, for every int64 |
| Predictor.PredLeak | src/pcm_v4.hpp:215-220 | the magnitude divided and truncated with the sign put back, never past zero, for every int64 |
| Predictor.PredClampTap | src/pcm_v4.hpp:223-227 | within the limit always, and unchanged when already within |
| BlockKernels.KernelSums | src/pcm_v4.hpp:408-480 | however the products are split into lanes and accumulators, a kernel's two sums are the per-frame ones and fit int64 |
| BlockKernels.LaneUpdateR | src/pcm_v4.hpp:480-508 | a lane's branchless update of a real tap is the reference's clamped one |
| BlockKernels.LaneUpdateI | src/pcm_v4.hpp:480-508 | and of an imaginary tap |
| BlockKernels.SlideLanes | src/pcm_v4.hpp:512-602 | rotating and blending registers slides the window by one sample |
| Rice.RiceDecodeResiduals | src/pcm_v4.hpp:923-1000 | the decoder with its refilled 64-bit accumulator gives, for every byte string and count, the residuals or the failure of reading the bits one by one |
| Rice.RoundTrip | src/pcm_v4.hpp:915-920 | for every list of int32 residuals and every k up to 30 decoding the encoding returns the list, whatever follows it |
| Rice.CodewordLayout | src/pcm_v4.hpp:917-920 | a residual on the wire is a run of ones, a zero and k bits; with 2^k for each one and the bits lowest first they add up to twice the residual, or one less than twice its magnitude below zero |
| Rice.Refusals | src/pcm_v4.hpp:925-933 | a body without a parameter is refused, and one is refused for its parameter if and only if that is above 30 |
| Bitwise.BitOfByte | src/pcm_v4.hpp:943-948 | bit 8i + j of a body is bit j of its byte i |
| Rice.ReadUnary | src/pcm_v4.hpp:956-985 | a run of any length, over any number of refills and out of a full accumulator, is counted modulo 2^32 with its stop bit consumed; it terminates |
| Rice.CountOnes | src/pcm_v4.hpp:957-959 | the trailing zeros of the complement say how far the run goes, also at 63 and 64 bits |
| Rice.StopBit | src/pcm_v4.hpp:960-975 | dropping the run and its stop bit leaves the accumulator on the bits that follow, even when that drops all 64 |
| Rice.Refill | src/pcm_v4.hpp:943-948 | a refill leaves the accumulator holding the same bit list, and progresses |
| Rice.JoinCodeword | src/pcm_v4.hpp:992 | quotient and remainder join to the codeword modulo 2^32 |
| Machine.Wraps | src/pcm_v4.hpp:993-996 | a conversion between machine words takes off a multiple of the modulus and leaves a number in its range |
| Rice.UnzigzagXor | src/pcm_v4.hpp:995-996 | the exclusive-or form undoes the zigzag |
| Rice.PredTrailingZeros64 | src/pcm_v4.hpp:231-240 | counts trailing zeros, and 64 for zero |
| Varint.ReadUvarint | src/pcm_v4.hpp:1006-1021 | value, offset and failure are those of the recursive definition, the ten-byte and 64-bit limits included |
| Varint.ReadVarint | src/pcm_v4.hpp:1025-1030 | and signed |
| Varint.UvarintBack | src/pcm_v4.hpp:1002-1021 | every 64-bit number is read back from its encoding, whatever follows it |
| Varint.SignedVarintBack | src/pcm_v4.hpp:1023-1030 | every int64 likewise |
| Headers.RoundTrip | src/pcm_v4.hpp:1061-1077 | for every state and every header that may be sent in it, decoding the documented encoding returns the header with every field carried forward, and the state a server expects |
| Headers.FullPacket | src/pcm_v4.hpp:1061-1077 | a packet that carries everything, byte by byte: magic, flags, eight bytes of time, count, rate, channels, power and noise, for all their values |
| Headers.DeltaPacket | src/pcm_v4.hpp:1061-1077 | a packet that carries only a time: the flags, and an even byte for later, an odd one for earlier |
| Headers.FlagBits | src/pcm_v4.hpp:109-116 | the flags byte as a number |
| Headers.Quality | src/pcm_v4.hpp:252-256 | readings are hundredths of a decibel, and -32768 is the -999 of no reading |
| Headers.PCMv4HeaderDecoder.DecodePacket | src/pcm_v4.hpp:1098-1198 | every success, every error, and the state after each: fields taken before a failure stay taken |
| Headers.PCMv4HeaderDecoder.Reset | src/pcm_v4.hpp:1082-1090 | a reset decoder is the initial state |
| Headers.Resynchronise | src/pcm_v4.hpp:1073-1077 | two decoders with any histories agree on, and after, the first packet with metadata, count and quality that either accepts |
| Headers.ResynchroniseStream | src/pcm_v4.hpp:1073-1077 | and on every packet after it |
| Headers.NothingBeforeMetadata | src/pcm_v4.hpp:1092-1097 | before a packet with metadata nothing is accepted and nothing is remembered |
| Headers.TimestampsAdd | src/pcm_v4.hpp:1121-1142 | over any accepted packets without metadata the timestamp is the last full one plus all deltas modulo 2^64 |
| DscSymbols.CodeBack | src/dsc_decoder.cpp:157-177 | every symbol is read back from its ten bits |
| DscSymbols.CodewordSays | src/dsc_decoder.cpp:157-177 | a codeword holds the seven bits of its symbol, lowest first, and the number of zeros among them in three more, highest first |
| DscSymbols.OnlyCodewords | src/dsc_decoder.cpp:165-177 | ten bits taken for a symbol are that symbol's codeword, so damage shows unless it makes another codeword |
| DscSymbols.UnidirectionalDetected | src/dsc_decoder.cpp:165-177 | any errors in one direction, however many of the ten bits, are detected |
| DscSymbols.RegLow | src/dsc_rx.cpp:303-315 | the low bits of the shift register are the last bits received |
| DscSymbols.LastSymbol | src/dsc_rx.cpp:332-337 | the low ten bits of the register are decoded as the last ten bits received |
| DscDecoders.StepKeeps | src/dsc_decoder.cpp:68-154 | every transition of the nine states keeps them meaning what the symbols since the start mean: the ring holds the first copies still waiting, the bytes are the characters complete so far, and the errors their count |
| DscDecoders.DSCDecoder.Init | src/dsc_decoder.cpp:51-66 | a start at any offset of the table forgets what was heard |
| DscDecoders.DSCDecoder.DecodeSymbol | src/dsc_decoder.cpp:68-154 | one symbol makes the specified transition in the fields and in the three-slot ring, and returns true exactly when it ends the message |
| DscDecoders.DSCDecoder.DecodeBits | src/dsc_decoder.cpp:180-184 | true exactly when these bits complete the message, whose bytes are then the characters chosen from the two copies |
| DscDecoders.DSCDecoder.SelectSymbol | src/dsc_decoder.cpp:187-210 | the first copy if it shows no damage, else the second, else the substitute; the errors count their disagreement |
| DscDecoders.TimeDiversity | src/dsc_decoder.cpp:109-145 | a message is delivered exactly when each of its characters can be told from one of its two copies, and exactly one symbol after the one that told the end of sequence |
| DscDecoders.MessageIs | src/dsc_decoder.cpp:110-210 | a message has at most 41 characters and ends at its first 117, 122 or 127 with one more, and a character lost in it is received as 42 |
| DscDecoders.AlwaysEnds | src/dsc_decoder.cpp:119-123 | whatever is heard, the message ends within 86 symbols of the phasing with 1 to 41 characters |
| DscDecoders.OneEnd | src/dsc_decoder.cpp:141-149 | it ends at one place only |
| DscDecoders.CleanErrors | src/dsc_decoder.cpp:99-107 | a transmission without any damage is reported with exactly two errors, because the two phasing symbols between the first characters are compared one position late |
| DscDecoders.DamageCounted | src/dsc_decoder.cpp:80-107 | when every symbol is as sent or shows its damage, the errors counted are the damaged phasing symbols and damaged copies, and two more |
| DscReceivers.Receiver.ReceiveBit | src/dsc_rx.cpp:301-362 | for every bit stream the register, counter and decoder deliver the call that the bits since the last start frame, at the very bit that completes it, and then start over |
| DscReceivers.Receiver.ReceiveBits | src/dsc_rx.cpp:301-362 | hence every call of a stream, in order |
| DscReceivers.Receiver.Hunting | src/dsc_rx.cpp:310-330 | the table search locks exactly when the last thirty bits are part of the phasing sequence, with the offset of that part |
| DscReceivers.Receiver.TakeSymbol | src/dsc_rx.cpp:335-359 | ten bits after the last symbol the decoder takes the next, and a whole message restarts the hunt |
| DscReceivers.Receiver.Init | src/dsc_rx.cpp:185-199 | a start forgets all bits |
| DscReceivers.TableIsPhasing | src/dsc_decoder.cpp:25-36 | each table entry is the register after its three codewords of 125 111 125 110 125 109 125 108 125 107 125 106 |
| DscReceivers.TableShows | src/dsc_rx.cpp:318-321 | the register equals an entry if and only if the window shows those codewords |
| DscReceivers.LockEnds | src/dsc_rx.cpp:332-359 | once locked, a call is delivered within 950 bits, whatever they are |
| DscReceivers.NotFramedBefore | src/dsc_rx.cpp:335-359 | no shorter prefix frames a call |
| DscReceivers.TransmissionFramed | src/dsc_rx.cpp:301-362 | a receiver in phase frames exactly the message sent if and only if every character can be told from one of its two slots |
| DscReceivers.TransmissionDelivered | src/dsc_rx.cpp:301-362 | and then delivers it first, whatever follows, with the errors of the symbols heard |
| DscReceivers.CleanStart | src/dsc_rx.cpp:307-330 | after dots of any length the receiver locks on the very beginning of the phasing sequence, never inside the dots or a few bits early |
| DscReceivers.CleanCallIs | src/dsc_rx.cpp:301-362 | a call that starts cleanly, with one copy of each character intact and the other intact or damaged in one direction, is framed whole, with the errors of the symbols after the third |
| DscReceivers.CleanCallTail | src/dsc_rx.cpp:301-330 | and a dot less before it makes no difference |
| DscReceivers.CleanCallDelivered | src/dsc_rx.cpp:301-362 | and is the first call delivered, with those errors |
| DscReceivers.DamageReported | src/dsc_rx.cpp:301-362 | a call that starts cleanly, each of its slots intact or damaged in one direction and one copy of each character intact, is framed whole and reported with two errors and one for each damaged slot that counts |
| DscReceivers.UndamagedCall | src/dsc_decoder.cpp:99-107 | a transmission whose every bit that counts is as it was sent is framed whole and reported with exactly two errors |
| DscReceivers.SymbolsAreValid | src/dsc_decoder.cpp:187-210 | no call carries anything but seven-bit symbols: the mark of a detected error never gets through |
| DscEcc.CheckECC | src/dsc_message.cpp:164-172 | the loop compares the check with the exclusive or of all bytes but the first and the last |
| DscEcc.ParityIsOdd | src/dsc_message.cpp:164-172 | a bit of the calculated character is set if and only if an odd number of the bytes have it set |
| DscEcc.PassesIsEven | src/dsc_message.cpp:164-172 | a message checks if and only if every bit is set in an even number of its bytes after the first |
| DscEcc.OneChangeNoticed | src/dsc_message.cpp:164-172 | changing one byte other than the first, to any other value, makes a message that checked fail |
| DscEcc.FirstNotCovered | src/dsc_message.cpp:167-170 | the first byte may change unnoticed |
| DscEcc.LostSymbolNoticed | src/dsc_decoder.cpp:202-207 | when exactly one character other than the end of sequence loses both copies the message is still completed with the substitute in its place, and the check fails if and only if the character is not the first and was not the substitute |
| DscEcc.LostEndNotSeen | src/dsc_decoder.cpp:113-117 | when it is the end of sequence that is lost the decoder goes on waiting |
| ClockRecovery.TickRange | src/dsc_rx.cpp:279-295 | the clock keeps to [-spb/2 - 1, spb/2 - 1) on a sample if and only if that sample does not complete a call |
| ClockRecovery.TickBounds | src/dsc_rx.cpp:279-295 | and never leaves [-3*spb/2, spb/2 - 1) |
| ClockRecovery.EdgeToEdge | src/dsc_rx.cpp:283-295 | from one rising edge to the next, m bits and e samples away, exactly m bits are taken and the clock keeps three quarters of its error, plus e |
| ClockRecovery.Tracks | src/dsc_rx.cpp:283-295 | over any number of edges, from anywhere in the clock's range: while three quarters of the error plus the jitter stays in the range at each edge, exactly the signal's bits are taken and the clock ends where that recurrence does |
| ClockRecovery.TracksWithin | src/dsc_rx.cpp:283-295 | jitter within a quarter of a margin never costs or adds a bit and leaves the clock within the margin |
| ClockRecovery.Contracts | src/dsc_rx.cpp:285-287 | without jitter the clock after n edges is 0.75^n of what it was, from anywhere in its range, and each bit between has been taken once |
| ClockRecovery.WaveTaken | src/dsc_rx.cpp:279-295 | from any place of the clock in its range a signal of full-length bits is sampled into exactly its bits |
| ClockRecovery.CallLosesABit | src/dsc_rx.cpp:185-199 | after a completed call the clock restarts a whole bit low, so that without an edge no bit is taken for nearly two bit periods |
| ClockRecovery.AtMostOneBitLost | src/dsc_rx.cpp:185-199 | a signal of full-length bits that follows a call, whatever is left of the call's last bit, is sampled into exactly its bits or all but the first, and the clock is back in its range |
| ClockRecovery.WaveDelivers | src/dsc_rx.cpp:279-362 | from any place of the clock in its range a signal whose bits frame a call is demodulated into that call and no other |
| ClockRecovery.TransmissionAfterCall | src/dsc_rx.cpp:185-362 | straight after a call, a transmission with a dot before its phasing sequence is received whole too: if a bit is lost, it is a dot |
| ClockRecovery.CallsReceived | src/dsc_rx.cpp:205-362 | from the demodulator's decisions to the messages: of any number of calls sent back to back after dots, one copy of each character intact and the other intact or damaged in one direction, every one is received whole with its errors, and nothing else is |
| ClockRecovery.BitSampler.ProcessLevel | src/dsc_rx.cpp:279-295 | one decision moves the clock as specified and hands on exactly the bits it takes, and a completed call resets the clock before it steps back |
| ClockRecovery.BitSampler.ProcessLevels | src/dsc_rx.cpp:205-237 | hence every call of a run of decisions |
| MovingMaximums.CachedMaximum.Push | src/movingmaximum.h:56-82 | after every push the circular buffer holds the last samples and the cached value is their maximum, with or without a rescan |
| MovingMaximums.CachedMaximum.GetMaximum | src/movingmaximum.h:84-86 | the maximum of the window, and not a number if and only if nothing has been pushed |
| MovingMaximums.CachedMaximum.SetSize | src/movingmaximum.h:48-54 | another size is a new buffer: nothing pushed is left |
| MovingMaximums.CachedMaximum.Rescan | src/movingmaximum.h:73-80 | the rescan finds the maximum of the buffer |
| MovingMaximums.IsMaximumDrop | src/movingmaximum.h:72-74 | a maximum larger than the sample that leaves is still the maximum |
| MovingMaximums.DequeMaximum.Push | src/dsc_rx.cpp:104-109 | the deque holds the last samples |
| MovingMaximums.DequeMaximum.GetMaximum | src/dsc_rx.cpp:111-117 | the scan finds their maximum, and 0 for none |
| MovingMaximums.Agree | src/movingmaximum.h:56-86 | for every window size and every sequence of samples the two give the same maximum each time |
| FirFilters.FirFilter.Filter | src/firfilter.h:40-63 | for every sequence of complex inputs the folded ring-buffer loop returns their direct convolution with the mirrored real taps, silence before the first |
| FirFilters.ConvolutionParts | src/firfilter.h:40-63 | the parts of that answer are the real convolutions of the parts of the inputs with the taps |
| FirFilters.Fold | src/firfilter.h:50-56 | one fold adds the terms at both ends of the convolution |
| FirFilters.Ends | src/firfilter.h:54-55 | the two indices that move in opposite directions stand on the inputs that share a tap |
| FirFilters.FirFilter.constructor | src/firfilter.h:82-90 | a new filter has heard silence |
| SecureHash.Sha1 | IXWebSocket/ixwebsocket/IXWebSocketHandshakeKeyGen.h:100-109 | with rotating registers and the schedule in sixteen words in place the hash becomes that of section 6.1.2 of FIPS 180-4, for every hash value and block |
| SecureHash.Phase1 | IXWebSocket/ixwebsocket/IXWebSocketHandshakeKeyGen.h:63-68 | rounds 0 to 15 are rounds of the standard |
| SecureHash.Phase2 | IXWebSocket/ixwebsocket/IXWebSocketHandshakeKeyGen.h:69-75 | rounds 16 to 19, with the word replaced in place |
| SecureHash.Phase3 | IXWebSocket/ixwebsocket/IXWebSocketHandshakeKeyGen.h:76-81 | rounds 20 to 39 |
| SecureHash.Phase4 | IXWebSocket/ixwebsocket/IXWebSocketHandshakeKeyGen.h:82-88 | rounds 40 to 59 |
| SecureHash.Phase5 | IXWebSocket/ixwebsocket/IXWebSocketHandshakeKeyGen.h:89-94 | rounds 60 to 79 |
| SecureHash.BlkIsW | IXWebSocket/ixwebsocket/IXWebSocketHandshakeKeyGen.h:53-56 | the word mixed from the four places is the schedule's next |
| SecureHash.Replaced | IXWebSocket/ixwebsocket/IXWebSocketHandshakeKeyGen.h:70 | writing it over the oldest keeps the last sixteen words |
| SecureHash.Turned | IXWebSocket/ixwebsocket/IXWebSocketHandshakeKeyGen.h:64-67 | writing two registers in place and moving on one place is the renaming of all five |
| SecureHash.ChooseIsCh | IXWebSocket/ixwebsocket/IXWebSocketHandshakeKeyGen.h:64-66 | the three-operation form is Ch |
| SecureHash.MajorityIsMaj | IXWebSocket/ixwebsocket/IXWebSocketHandshakeKeyGen.h:84-85 | the and-or form is Maj |
| SecureHash.Accumulate | IXWebSocket/ixwebsocket/IXWebSocketHandshakeKeyGen.h:95 | the last phase adds the registers to the hash in reverse |
| SecureHash.RotatedByOne | IXWebSocket/ixwebsocket/IXWebSocketHandshakeKeyGen.h:49-52 | bit i of a word rotated by 1 is the bit one place below, around the end |
| SecureHash.RotatedByFive | IXWebSocket/ixwebsocket/IXWebSocketHandshakeKeyGen.h:49-52 | by 5, five places below |
| SecureHash.RotatedByThirty | IXWebSocket/ixwebsocket/IXWebSocketHandshakeKeyGen.h:49-52 | by 30, thirty places below |
| SecureHash.ScheduleBits | IXWebSocket/ixwebsocket/IXWebSocketHandshakeKeyGen.h:53-56 | bit i of a word of the schedule from the sixteenth on is the exclusive or of the bits one place below of the words 3, 8, 14 and 16 before it |
| SecureHash.ChoiceBits | IXWebSocket/ixwebsocket/IXWebSocketHandshakeKeyGen.h:64-66 | the choice is the second word where the first is set, and the third elsewhere |
| SecureHash.MajorityBits | IXWebSocket/ixwebsocket/IXWebSocketHandshakeKeyGen.h:84-85 | the majority agrees with any two words that agree |
| SecureHash.ParityCancels | IXWebSocket/ixwebsocket/IXWebSocketHandshakeKeyGen.h:78-79 | the parity is the exclusive or of its three words |
| SecureHash.RootConstants | IXWebSocket/ixwebsocket/IXWebSocketHandshakeKeyGen.h:66-93 | the four constants are the square roots of 2, 3, 5 and 10, cut at thirty binary places |
| Handshake.Generate | IXWebSocket/ixwebsocket/IXWebSocketHandshakeKeyGen.h:128-170 | for every key of 24 bytes without NUL the output is the accept value of section 4.2.2 of RFC 6455, and for other strings that of the 24 bytes they are cut or filled to |
| AcceptExample.ExampleAccepted | IXWebSocket/ixwebsocket/IXWebSocketHandshakeKeyGen.h:128-170 | the key of section 1.3 of RFC 6455 gives the answer the standard gives, through all 160 rounds |
| Handshake.AcceptIs | IXWebSocket/ixwebsocket/IXWebSocketHandshakeKeyGen.h:134-159 | the padded key and GUID are the two blocks laid out |
| Handshake.PaddedKey | IXWebSocket/ixwebsocket/IXWebSocketHandshakeKeyGen.h:134-158 | the padding of section 5.1.1 of FIPS 180-4, with the mark in the first block and the length in the second |
| Handshake.EncodeBase64 | IXWebSocket/ixwebsocket/IXWebSocketHandshakeKeyGen.h:111-125 | the loop over twenty bytes is Base64 of section 4 of RFC 4648 |
| Handshake.SextetsOfThree | IXWebSocket/ixwebsocket/IXWebSocketHandshakeKeyGen.h:116-119 | shifts and masks give the four sextets of the 24-bit group |
| Handshake.StoreHash | IXWebSocket/ixwebsocket/IXWebSocketHandshakeKeyGen.h:160-168 | words are laid out most significant byte first |
| Handshake.CopyKey | IXWebSocket/ixwebsocket/IXWebSocketHandshakeKeyGen.h:130-132 | the key is cut at 24 bytes or a NUL and filled |
| Utf8.AcceptsUtf8 | IXWebSocket/ixwebsocket/IXUtf8Validator.h:126-149 | the automaton accepts exactly the concatenations of encoded Unicode scalar values, and the code points it shows are the only ones the bytes encode |
| Utf8.ValidateUtf8 | IXWebSocket/ixwebsocket/IXUtf8Validator.h:168-176 | true exactly for UTF-8 |
| Utf8.Utf8Validator.Consume | IXWebSocket/ixwebsocket/IXUtf8Validator.h:111-118 | one byte at a time: false exactly when the bytes so far begin no UTF-8 |
| Utf8.Utf8Validator.Decode | IXWebSocket/ixwebsocket/IXUtf8Validator.h:127-140 | a run of bytes that goes on where the last stopped, however the bytes are cut |
| Utf8.Utf8Validator.Complete | IXWebSocket/ixwebsocket/IXUtf8Validator.h:146-149 | true exactly when the bytes so far are UTF-8, and the register then holds the last code point encoded |
| Utf8.DecodeNextByte | IXWebSocket/ixwebsocket/IXUtf8Validator.h:85-93 | the table gives the transition and the masks the bits of the code point |
| Utf8.TypesRow | IXWebSocket/ixwebsocket/IXUtf8Validator.h:50-66 | the first 256 entries sort the bytes by the ranges of section 4 of RFC 3629 |
| Utf8.StatesRow | IXWebSocket/ixwebsocket/IXUtf8Validator.h:67-75 | the rest are the transitions those ranges ask for |
| Utf8.RunEncoded | IXWebSocket/ixwebsocket/IXUtf8Validator.h:85-93 | each encoded character brings the automaton back with its code point in the register |
| Utf8.AcceptedHead | IXWebSocket/ixwebsocket/IXUtf8Validator.h:85-93 | accepted bytes begin with the encoding of a scalar value: no overlong form, surrogate or value past 10FFFF |

## Left out

- The server's encoder is not part of the repository; the encoder here is the forward direction of the filters with a Rice coder and the documented packet layout. How the server chooses k, escapes or shifts is not modelled: any choice that can be coded is covered.
- StreamDecoders.PCMv4StreamDecoder.Decode: returns the samples where the program leaves them in a buffer it keeps; what that buffer holds after a failure is not modelled.
- Headers.PCMv4HeaderDecoder.DecodePacket: does not model the fields of the caller's header that a failing call has already filled in, only the decoder's own state, which is exact; the two quality readings are reals, not floats; the sum of the last timestamp and a delta, which the program forms in a signed word, wraps.
- ComplexStages.ComplexStage.constructor: orders from 1 to 127, the most whose sums are sure to fit int64, and step sizes up to 2^30 - 2^23 - 1, the largest whose update is sure to fit int32; the program builds order 16 with step 16 only. The real stage takes the same step sizes and any order whose window length is an int.
- Vector intrinsics are modelled as operations on sequences of lanes, with the order and width of the lanes of both kernels; the detection of the processor's features is a parameter.
- Telling packet kinds apart by their magic before decoding (isV4Frame, isZstdFrame) is left out.
- The samples before the decision on the level (mixing, low-pass filtering, magnitude, envelope and threshold) are floating point; the receiver here starts from the decision. Signal strength, statistics, the callback and the clock of the day are left out.
- ClockRecovery.TickRange: the clock is a real, where the program uses a double; all its steps are exact on doubles for as many edges as 0.75^n keeps within their precision.
- FirFilters.FirFilter.Filter: exact sums, where the program has floats; the buffer has the odd length that goes with the stored taps; how the taps are generated is left out.
- Handshake.Generate: the characters of the key are bytes, so shifting one with its high bit set into the sign of an int is taken to be the unsigned shift.
- Decoding the fields of a DSC message, its tables and its output as text are left out: long plumbing without a law across them. The second copy of the DSC decoder in src/dsc.cpp is not modelled apart.
- Sockets, threads, the channel manager, the web page, and the rest of IXWebSocket are left out: foreign calls, or members with little to prove.
