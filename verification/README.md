# Verification of the software modem

A Dafny model of the data path and the protocols of a V.22bis software modem that answers
calls over SIP or an audio socket and hands the bytes to a PPP daemon. Code that works in
place is modelled by classes and methods with loops; each is proved against a specification
function, and the promises are proved about those functions for every input, every run or
every interleaving.

`dafny verify dfyconfig.toml` checks the whole project.

| file | what it covers |
|---|---|
| `Bits.dfy` | bits, powers of two, options |
| `Scrambler.dfy` | scrambler and descrambler with the rule for 64 ones: round trip, recovery, acquisition |
| `Constellation.dfy` | differential quadrants, the two slicers, rotation by quarter turns |
| `Async.dfy` | start/stop framing: the bit queue (a ring with 32-bit counters) and the deframer |
| `V22bis.dfy` | training of both sides as a state machine, its safety and its schedule |
| `Timeline.dfy` | how long each training state lasts and on what evidence it ends, and how a transmission begins and ends |
| `Retrain.dfy` | which modems come back to data mode after a retrain |
| `Handover.dfy` | from training to a synchronised link |
| `ModemState.dfy` | the same machine as the program keeps it, a state object changed in place |
| `S1Detector.dfy` | what the sliding-window detector of the 2400 bit/s request accepts |
| `Timing.dfy` | fractional symbol timing under a Gardner detector |
| `Shaper.dfy` | the polyphase pulse shaper against a direct convolution, and its table layout |
| `Link.dfy` | everything above joined end to end: bytes in, bytes out |
| `Delivery.dfy` | what a pump moves, and that every byte gets through |
| `Call.dfy` | the callbacks of a call and its receive buffer, in place |
| `Algebra.dfy`, `Fft.dfy` | the in-place radix-2 FFT over any commutative ring, and over exact complex numbers |
| `SpscRing.dfy` | the sample ring, access by access under every interleaving, and its methods |
| `AstSocket.dfy` | the resumable framed reader and the writer |
| `Playout.dfy` | the drop-oldest audio queue and the RTP counters |
| `Relay.dfy` | the two-way relay between pppd and the modem |
| `SipText.dfy`, `Sip.dfy`, `SipRequest.dfy`, `SipParser.dfy` | the SIP parser and response printer, what one reads of the other's output, and what is read of a request |

## How to read it

The scrambler is that of section 5 of ITU-T V.22bis, the encoding that of section 2.5.2 and
the training that of section 6.3. A 32-bit shift register is a sequence of 32 bits, newest
first, and the 64-bit dibit history a sequence of 32 dibits. The queue counters wrap at 2^32,
the ring counters at 2^64, the RTP counters at 2^16 and 2^32. What the program gets from outside (the
results of receive, send, poll, write and of the other end) is an arbitrary schedule. A
received point is any pair of reals, the sign of the timing detector and the loss of carrier
are arbitrary events.

Main results, hardest first:

* **Bytes in, bytes out** (`Link.BytesInBytesOut`, `Link.NothingLost`, `Link.DiscardsWhen`): for every
  interleaving of pushes, symbols, noise below one unit per axis and pumps, at 1200 and at 2400
  bit/s, the bytes written are a prefix of the bytes accepted, and the exact condition under
  which the program itself throws bytes away.
* **Every byte gets through** (`Delivery.EverythingGetsThrough`, `Delivery.PumpsDeliver`, `Delivery.PumpWrites`):
  how many symbols and pumps it takes until all of the bytes pushed have been written.
* **The FFT is the DFT** (`Fft.Transform`, `Fft.FastIsTransformed`, `Fft.InverseUndoes`): the
  swaps and butterflies with an accumulated twiddle compute the sum for every power of two, and
  the inverse undoes it, in every commutative ring with the roots the code uses.
* **The polyphase shaper is a direct convolution** (`Shaper.PulseShaper.Produce`), for every run
  and every cut of the run into calls.
* **Training** (`V22bis.AlwaysSafe`, `V22bis.FollowsSchedule`, `V22bis.ReachesNormal`,
  `V22bis.SearchEnds`): safety for every run, exactly 60, 300 and 120 symbols before the first
  user bit, and normal operation after exactly the symbols left, whatever is received meanwhile.
* **Handover** (`Handover.TrainingLocks`, `Handover.TrainingEndsSynchronised`): ten symbols of
  scrambled ones decided correctly leave both ends in the state in which the first result starts.
* **Retrain** (`Retrain.RecoversExactly`, `Retrain.RecoversAt1200`): who comes back to data mode.
* **Rotation** (`Constellation.InvarianceExactly`, `Constellation.TurnExactly`): when a constant
  rotation leaves the received bits alone, for every run and every turn.
* **The receiver's timetable** (`Timeline.ReceivesAt1200`, `Timeline.ReceivesAt2400`,
  `Timeline.AnswersOnes`, `Timeline.RetrainsExactly`): over every run, after how many symbols and
  on what evidence each state of the receiver ends, by the position of dibits and bits.
* **S1** (`S1Detector.DetectsExactly`, `S1Detector.SpoiltUndetected`): what is detected and what never is.
* **The polynomial** (`Scrambler.LineRecurrence`, `Scrambler.DataRecurrence`): every bit on the line
  and every bit recovered by the position of the line bits it depends on.
* **Lock** (`Scrambler.Acquisition`, `Scrambler.BurstRecovery`, `Async.Resynchronises`): how soon each layer
  recovers from any state.
* **SIP** (`Sip.ResponseReadsBack`, `Sip.FieldsReadBackExactly`, `Sip.ToTagReadsBack`,
  `SipRequest.RequestReads`): what a response says to its reader, with the exact conditions for
  nothing being lost, and what is read of a request.
* **Ring, socket, playout and relay** (`SpscRing.ReadsArePrefix`, `AstSocket.DeliversInOrder`,
  `Playout.AlwaysConserved`, `Relay.WritesPrefix`).

## What turned out not to hold

* A run of ones on the line is not bounded by 64: after 64 counted ones the next line bit is the
  complement of the input, so a zero prolongs the run, and some input from reset gets there
  (`Scrambler.RunLongerThan64`). No 65 ones stand in a row if and only if the input is a one
  whenever the count is 64 (`Scrambler.NoLongRunExactly`). Constant ones from reset never give
  more than 16 in a row (`Scrambler.RunsFromReset`).
* Rotation by quarter turns changes the raw bits of a run with a point on a decision boundary
  (`Constellation.BoundaryBreaksInvariance`). After a clear first point the raw bits survive every
  turn if and only if all points are clear (`Constellation.InvarianceExactly`); for a given turn
  and any run `Constellation.TurnExactly` says when they do.
* A calling modem that sees a retrain request in 2400 bit/s data never returns to data mode
  without a carrier loss or a restart (`Retrain.CallerStranded`): its transmitter waits in the
  state of scrambled ones at 1200 bit/s, and the transition out of it needs a 1200 bit/s rate that
  the retrain no longer passes through. Such a modem is reached from its start
  (`Retrain.RetrainReached`), and at 2400 recovery is possible if and only if the modem is the
  answering one (`Retrain.RecoversExactly`). At 1200 a retrain searches for S1 again, and either
  side recovers when it hears none (`Retrain.RecoversAt1200`); a caller that does hear S1 then is
  stranded too (`Retrain.AskedStrands`).
* A relay direction conserves its bytes exactly when each read fits behind what is still held
  (`Relay.RoundConserves`, `Relay.FittingConserves`). Reads that poll was asked for always fit;
  reads made on a hang-up reported while the buffer is full stop fitting at the third
  (`Relay.ThirdHangUpReadOverflows`).
* A SIP field cut to its buffer just behind blanks loses all of them when it is printed and read
  again (`Sip.CutCSeqUnclean` gives a request whose CSeq is such a field), and a To tag appended to
  a long To is cut itself (`Sip.LongToLosesTag`).

Where `docs/v22bis.md` and the code differ the code is followed: the document asks for 15
repeats within 270 ms to detect S1, the code for 23 of the 31 newest pairs within 400 ms. A
comment in the receiver asks for 32 ones before data at 2400 bit/s, the code for nine symbols of
four.

## Model

| member | source | states |
|---|---|---|
| Scrambler.LockedStep | src/modem/v22bis/v22bis_rx.c:52-70 | a descrambler in lock returns the scrambler's input bit and stays in lock |
| Scrambler.LineRecurrence | src/modem/v22bis/v22bis_tx.c:38-55 | from reset every line bit is the input bit plus the line bits 14 and 17 places before it, complemented behind every 64th one of a run |
| Scrambler.DataRecurrence | src/modem/v22bis/v22bis_rx.c:52-70 | from reset every data bit recovered is the same sum over the line received |
| Scrambler.RoundTrip | src/modem/v22bis/v22bis_tx.c:38-55 | from lock, descrambling the scrambled stream gives back every input |
| Scrambler.BurstRecovery | src/modem/v22bis/v22bis_rx.c:52-70 | from any two states, 17 or more correct line bits with a zero among them give lock, and all later input comes back |
| Scrambler.CountedAlways | src/modem/v22bis/v22bis_tx.c:42-53 | over every run the pattern counter is at most 64 and never more than the ones at the new end of the register |
| Scrambler.ComplementAfter64 | src/modem/v22bis/v22bis_tx.c:42-47 | after 64 counted ones the next line bit is the complement of the input |
| Scrambler.RunLongerThan64 | src/modem/v22bis/v22bis_tx.c:38-55 | some input from reset leaves 64 ones counted, and then a zero puts a 65th one on the line |
| Scrambler.NoLongRunExactly | src/modem/v22bis/v22bis_tx.c:38-55 | over every input from reset, 65 ones never stand in a row if and only if the input is a one whenever 64 ones are counted |
| Scrambler.ZeroWithin65 | src/modem/v22bis/v22bis_tx.c:38-55 | under constant ones a zero comes within 65 line bits of any reachable state |
| Scrambler.RunsFromReset | src/modem/v22bis/v22bis_tx.c:284-285 | from reset constant ones never put more than 16 ones in a row on the line |
| Scrambler.Acquisition | src/modem/v22bis/v22bis_rx.c:690-691 | while the far end scrambles ones from reset, any receiver state is in lock after 17 correct line bits |
| Scrambler.AcquisitionFromAnyState | src/modem/v22bis/v22bis_rx.c:52-70 | from any reachable transmitter state 65 line bits of scrambled ones give lock |
| Constellation.PhaseStepsSelfInverse | src/modem/v22bis/v22bis_rx.c:22-22 | the table of phase steps is its own inverse |
| Constellation.PointIs | src/modem/v22bis/v22bis_tx.c:15-20 | the sixteen points: in each quadrant one bit lengthens each axis, turned with the quadrant |
| Constellation.PhaseAdvance | src/modem/v22bis/v22bis_tx.c:9-11 | dibits 00, 01, 10 and 11 turn the carrier by 90, 0, 180 and 270 degrees |
| Constellation.QuadrantRoundTrip | src/modem/v22bis/v22bis_rx.c:150-165 | the dibit decoded from two quadrants is the one that led from the first to the second |
| Constellation.Slice16Decides | src/modem/v22bis/v22bis_rx.c:254-263 | truncation, clamping and table together decide each axis on its own |
| Constellation.Slice16Nearest | src/modem/v22bis/v22bis_rx.c:24-43 | the table slicer picks a point at least as near as any other of the sixteen |
| Constellation.SliceCorrects | src/modem/v22bis/v22bis_rx.c:253-276 | a sent point received within one unit per axis is decided correctly, in both modes |
| Constellation.TurnedPoint | src/modem/v22bis/v22bis_rx.c:24-29 | turning a constellation point by 90 degrees adds 4 to its index, modulo 16 |
| Constellation.Slice16Turns | src/modem/v22bis/v22bis_rx.c:254-263 | the 16-way slicer follows a quarter turn if and only if the point is off the boundaries concerned |
| Constellation.Slice4Turns | src/modem/v22bis/v22bis_rx.c:264-276 | the 4-way slicer follows a quarter turn if and only if the point is off its boundary |
| Constellation.RotationInvariance | src/modem/v22bis/v22bis_rx.c:150-165 | a constant rotation by any number of quarter turns changes no raw bit after the first symbol of a run of points clear of the boundaries |
| Constellation.TurnExactly | src/modem/v22bis/v22bis_rx.c:150-165 | for any run and any turn those bits are unchanged if and only if every later decision moves by as many quadrants as the first and keeps its place within its quadrant |
| Constellation.InvarianceExactly | src/modem/v22bis/v22bis_rx.c:150-165 | after a clear first point they are unchanged under every turn if and only if all points are clear |
| Constellation.BoundaryBreaksInvariance | src/modem/v22bis/v22bis_rx.c:254-263 | a run of two points, the second on a boundary, whose received bits a quarter turn changes |
| Async.FrameDecodes | src/serial/sm_async.c:29-40 | a byte's frame, start, data from the lowest bit and stop, read by an idle deframer gives that byte and leaves it at rest |
| Async.FrameIs | src/serial/sm_async.c:29-40 | a frame is a zero, the byte from its lowest bit up, and a one |
| Async.BitQueue.constructor | src/serial/sm_async.c:5-8 | a new queue is valid and empty |
| Async.BitQueue.Count | src/serial/sm_async.c:10-13 | the number of bits held, also when the counters have wrapped |
| Async.BitQueue.Push | src/serial/sm_async.c:15-22 | appends the bit, or refuses exactly when 65536 bits are held |
| Async.BitQueue.PushByte | src/serial/sm_async.c:29-40 | appends a whole frame or nothing |
| Async.BitQueue.Pop | src/serial/sm_async.c:42-51 | takes the oldest bit, or reports empty |
| Async.CounterArithmetic | src/serial/sm_async.c:10-22 | the counters and their difference are those of a 32-bit word |
| Async.AppendSlot | src/serial/sm_async.c:15-22 | writing at the wrapped head appends to the contents and raises the count by one |
| Async.FramedAlways | src/call/sm_call.c:98-105 | for every run of pushes and pulls the pulled stream is a prefix of whole frames with idle ones only between them |
| Async.Deframer.Reset | src/serial/sm_async.c:53-57 | back to idle with nothing held and both counters at zero |
| Async.Deframer.PutBit | src/serial/sm_async.c:59-106 | one step of the deframer: state, bytes held and both counters; a full buffer is emptied first |
| Async.Deframer.Take | src/serial/sm_async.c:108-119 | takes up to `len` bytes from the front and keeps the rest in order |
| Async.LineDecodes | src/serial/sm_async.c:59-106 | any mixture of frames and idle bits decodes to exactly the framed bytes |
| Async.PrefixDecodes | src/serial/sm_async.c:59-106 | any prefix of such a line decodes to a prefix of the bytes |
| Async.Resynchronises | src/serial/sm_async.c:59-106 | nine ones bring any deframer state to rest with at most one spurious byte, and all that follows decodes exactly |
| Async.EightOnesAreNotEnough | src/serial/sm_async.c:81-88 | a state from which eight ones do not suffice |
| V22bis.AlwaysSafe | src/modem/v22bis/v22bis_rx.c:278-519 | over every run: sixteen-way decisions only at 2400, a modem not configured for 2400 stays at 1200, and a receiver in data mode uses the symbol width of the negotiated rate |
| V22bis.SafeTx | src/modem/v22bis/v22bis_tx.c:71-185 | every transmitted baud keeps those invariants |
| V22bis.SafeRx | src/modem/v22bis/v22bis_rx.c:278-519 | every receiver decision keeps them |
| V22bis.DataOnlyInNormal | src/modem/v22bis/v22bis_tx.c:158-185 | over every run, what the data source offers outside transmit normal operation changes neither the modem nor any symbol sent |
| V22bis.DeliveredOnlyInNormal | src/modem/v22bis/v22bis_rx.c:72-76 | bits are delivered only by a receiver in normal operation, two or four per symbol |
| V22bis.AcceptedS1 | src/modem/v22bis/v22bis_rx.c:422-440 | a 2400-capable answerer that accepts S1 stands at the start of the schedule |
| V22bis.RetrainRestartsSchedule | src/modem/v22bis/v22bis_rx.c:284-318 | so does an answerer at 2400 that sees a retrain request |
| V22bis.FollowsSchedule | src/modem/v22bis/v22bis_tx.c:94-151 | whatever is received meanwhile, it sends exactly 60 S1 symbols, 300 of scrambled ones in 4PSK and 120 in 16QAM before its first user bit |
| V22bis.BaudsLeftDecreases | src/modem/v22bis/v22bis_tx.c:94-151 | in every timed state each baud brings normal operation one baud nearer |
| V22bis.ReachesNormal | src/modem/v22bis/v22bis_tx.c:94-151 | over every run without carrier loss, restart or retrain, on either side and at either rate, a timed modem whose receiver has settled is in normal operation if and only if it has sent the symbols that were left |
| V22bis.SearchEnds | src/modem/v22bis/v22bis_rx.c:376-456 | a search that hears no S1 ends after 240 decisions, and 453 symbols later either side is in normal operation at 1200 |
| Timeline.AcquiresIn40 | src/modem/v22bis/v22bis_rx.c:309-326 | forty decisions after a carrier the rate is 1200, the caller looks for unscrambled ones and the answerer for S1 |
| Timeline.AcquiresAfterLoss | src/modem/v22bis/v22bis_rx.c:683-729 | that is counted from where a carrier loss leaves the receiver |
| Timeline.AcquiresAfterRestart | src/modem/v22bis/v22bis_tx.c:274-346 | and from where a restart leaves it |
| Timeline.AnswersOnes | src/modem/v22bis/v22bis_rx.c:328-359 | at its 366th decision the caller begins to send, S1 or scrambled ones as configured, if and only if the last 274 dibits were all 00 or all 11 |
| Timeline.OnesEnd | src/modem/v22bis/v22bis_rx.c:361-375 | the ones are over at the first dibit that differs, and scrambled ones are sent from then on |
| Timeline.SearchReceives | src/modem/v22bis/v22bis_rx.c:442-458 | when a search hears no S1 the caller receives data at once and the answerer 382 decisions later |
| Timeline.ReceivesAt1200 | src/modem/v22bis/v22bis_rx.c:483-492 | an answerer committed to 1200 receives data if and only if its count has come to 622, over every run without carrier loss, restart or retrain |
| Timeline.TurnsAfter | src/modem/v22bis/v22bis_rx.c:459-480 | with 2400 agreed the receiver turns to sixteen points after exactly 270 decisions of the answerer's or 330 of the caller's |
| Timeline.ReceivesAt2400 | src/modem/v22bis/v22bis_rx.c:494-512 | from then on it receives data if and only if nine symbols in a row have been four ones each |
| Timeline.RetrainsExactly | src/modem/v22bis/v22bis_rx.c:284-307 | in data mode a decision is taken for a retrain request if and only if the last 50 pairs were complementary, the one it completes is not, and that begins with 00 or 11 |
| Timeline.AnswererOpens | src/modem/v22bis/v22bis_tx.c:77-93 | an answerer is silent for 45 symbols and then sends unscrambled ones, 270 degrees on each time |
| Timeline.CallerWaits | src/modem/v22bis/v22bis_tx.c:87-89 | a caller is silent until its receiver has it send |
| Timeline.DataThenOnes | src/modem/v22bis/v22bis_tx.c:57-69 | data are sent scrambled up to their end and ones after it |
| Timeline.DataEnd | src/modem/v22bis/v22bis_tx.c:165-169 | after the symbol in which data end nine more are sent, and then none |
| Retrain.CallerStranded | src/modem/v22bis/v22bis_rx.c:284-318 | a calling modem at 2400 that retrains never reaches normal operation again without carrier loss or restart |
| Retrain.RecoversExactly | src/modem/v22bis/v22bis_rx.c:284-318 | after a retrain request at 2400 some run of bauds and decisions leads back to normal operation if and only if the modem is the answering one |
| Retrain.RecoversAt1200 | src/modem/v22bis/v22bis_rx.c:284-318 | after one at 1200 either side is back 453 symbols after a search without S1 |
| Retrain.AskedStrands | src/modem/v22bis/v22bis_rx.c:422-440 | a caller configured for 2400 that hears S1 in that search is stranded |
| Retrain.RetrainReached | src/modem/v22bis/v22bis_rx.c:278-519 | a calling modem that sees a retrain request in 2400 bit/s data is reached from its start |
| Handover.QuadrantAgrees | src/modem/v22bis/v22bis_rx.c:150-165 | one correct decision makes both ends agree on the quadrant |
| Handover.TrainingLocks | src/modem/v22bis/v22bis_tx.c:114-151 | nine symbols of scrambled ones decided correctly, in 4PSK or 16QAM, bring any descrambler in lock with the scrambler |
| Handover.TrainingKeepsFree | src/modem/v22bis/v22bis_tx.c:71-156 | no symbol of training brings the scrambler into the state in which ones repeat |
| Handover.FreeUntilData | src/modem/v22bis/v22bis_tx.c:71-156 | nor does anything else between its start and its first user bit |
| Handover.TrainingSynchronises | src/modem/v22bis/v22bis_rx.c:376-512 | so when both ends enter normal operation at one rate after ten such symbols, the link between them is synchronised |
| Handover.TrainingEndsSynchronised | src/modem/v22bis/v22bis_tx.c:114-151 | with a receiver in normal operation for the last ten or more symbols of the sender's training, at either rate, the link is synchronised when the first user bit is due |
| ModemState.State.constructor | src/modem/v22bis/v22bis_tx.c:274-346 | a new modem is in the restarted state |
| ModemState.State.RestartRx | src/modem/v22bis/v22bis_rx.c:683-729 | restarts the receiver and puts the rate back to 1200, the transmitter untouched |
| ModemState.State.Scramble | src/modem/v22bis/v22bis_tx.c:38-55 | returns the line bit and updates register and counter as specified |
| ModemState.State.GetScrambledBit | src/modem/v22bis/v22bis_tx.c:57-69 | pulls a bit, and begins shutdown at the end of data |
| ModemState.State.TrainingGet | src/modem/v22bis/v22bis_tx.c:71-156 | every training state's symbol and next state |
| ModemState.State.GetBaud | src/modem/v22bis/v22bis_tx.c:158-185 | the symbol of one baud and the new transmitter state |
| ModemState.State.DescrambleBit | src/modem/v22bis/v22bis_rx.c:52-70 | returns the data bit and updates register and counter |
| ModemState.State.DecodeBaud | src/modem/v22bis/v22bis_rx.c:150-183 | the two or four descrambled bits of a symbol |
| ModemState.State.CountAlternations | src/modem/v22bis/v22bis_rx.c:405-413 | the loop counts the complementary neighbours in the history |
| ModemState.State.ProcessBaud | src/modem/v22bis/v22bis_rx.c:278-519 | one decision: bits delivered, retrain and S1 reports, and the whole new state |
| ModemState.State.Perform | src/modem/v22bis/v22bis_rx.c:278-519 | any sequence of events leaves the object in the specified state, with the specified symbols and bits, and safe throughout |
| S1Detector.HistoryIsLast32 | src/modem/v22bis/v22bis_rx.c:403-404 | the history always is the last 32 raw dibits |
| S1Detector.AlternationsCount | src/modem/v22bis/v22bis_rx.c:405-413 | the detector's count is the number of neighbours that are complementary |
| S1Detector.WindowAlternates | src/modem/v22bis/v22bis_rx.c:405-413 | 32 dibits of the pattern with at most 4 wrong leave a count of at least 23 |
| S1Detector.DetectsWithin32 | src/modem/v22bis/v22bis_rx.c:394-440 | such a window is detected, whatever came before, while time is left |
| S1Detector.DetectionMeans | src/modem/v22bis/v22bis_rx.c:414-440 | in every modem reached from its start S1 is detected if and only if the search is on, 16 dibits have been looked at, the last was 00 or 11 and at least 23 of the 31 newest pairs are complementary; 2400 is selected if and only if it is configured |
| S1Detector.SpoiltUndetected | src/modem/v22bis/v22bis_rx.c:405-421 | a window with 9 or more pairs that are not complementary is never detected |
| S1Detector.DetectsExactly | src/modem/v22bis/v22bis_rx.c:394-440 | in a search of 32 symbols or more the newest one completes S1 if and only if 23 pairs of the last 32 dibits are complementary and the last but one is 00 or 11 |
| S1Detector.DetectionLeads | src/modem/v22bis/v22bis_rx.c:418-440 | a detection starts the count again, at 2400 if that is configured, and only then makes the answerer send S1 |
| S1Detector.S1Alternates | src/modem/v22bis/v22bis_tx.c:94-113 | what the transmitter sends as S1 is received as the pattern |
| Timing.AlwaysInRange | src/modem/v22bis/v22bis_rx.c:599-655 | over every sequence, with the step of the detector lowered at bauds 30 and 40, the count-down stays in 1..95 and the filter set in 0..11, so the clamp never acts |
| Timing.BoundAttained | src/modem/v22bis/v22bis_rx.c:306-326 | 95 is reached by an undisturbed run from reset |
| Timing.Balance | src/modem/v22bis/v22bis_rx.c:218-226 | without resets the count-down is 19 - 12 N + 80 H + C |
| Timing.HalfBaudsKeepPace | src/modem/v22bis/v22bis_rx.c:599-655 | the half bauds inserted stay within one of those due: between 18 filter steps behind and 76 ahead |
| Timing.InstantIsDue | src/modem/v22bis/v22bis_rx.c:610-640 | the filter set chosen interpolates to the instant due: 19 twelfths of a sample, 80 for each half baud before, and the corrections |
| Timing.StepFollowsBauds | src/modem/v22bis/v22bis_rx.c:306-326 | over every run the detector's step is 256 for the first 30 bauds since the restart, 32 for the next 10 and 4 from then on |
| Timing.VotesAddUp | src/modem/v22bis/v22bis_rx.c:213-226 | no vote of the detector is lost in the division: corrections and integrator together are their sum |
| Timing.Receiver.SymbolSync | src/modem/v22bis/v22bis_rx.c:185-227 | integrate and dump, with division by 16 toward zero |
| Timing.Receiver.Receive | src/modem/v22bis/v22bis_rx.c:599-655 | the sample loop uses exactly the filter sets of the specification |
| Shaper.LaterSymbolsVanish | src/modem/v22bis/v22bis_tx.c:197-223 | symbols not yet due contribute nothing to a sample |
| Shaper.EmitTable | tools/gen_filters.py:114-119 | the table emitter interleaves the prototype: set j, tap i is coefficient 40 i + j |
| Shaper.WindowSum | src/modem/v22bis/v22bis_tx.c:210-223 | nine taps of the set 39 - phase give the direct sum over all symbols |
| Shaper.PulseShaper.Store | src/modem/v22bis/v22bis_tx.c:205-208 | the circular buffer holds the nine newest symbols in order |
| Shaper.PulseShaper.Filter | src/modem/v22bis/v22bis_tx.c:216-223 | the tap loop over the circular buffer is the dot product with it unrolled |
| Shaper.PulseShaper.Sample | src/modem/v22bis/v22bis_tx.c:197-223 | one sample: a symbol is fetched exactly when floor(3n/40) grows, and the output is the direct sum |
| Shaper.PulseShaper.Produce | src/modem/v22bis/v22bis_tx.c:197-223 | every sample of every run, however cut into calls, is the direct convolution |
| Shaper.DirectIgnoresLater | src/modem/v22bis/v22bis_tx.c:197-223 | the reference sum does not depend on symbols still to come |
| Link.DataSymbolSent | src/modem/v22bis/v22bis_tx.c:170-184 | in data mode the bits pulled are scrambled and coded into the symbol sent |
| Link.SymbolDecodes | src/modem/v22bis/v22bis_rx.c:150-165 | quadrant decoding and descrambling return the bits coded into a symbol |
| Link.SendKeeps | src/modem/v22bis/v22bis_tx.c:158-185 | sending a symbol keeps the invariant of the link |
| Link.ArriveKeeps | src/modem/v22bis/v22bis_rx.c:253-318 | receiving one within a unit per axis keeps it, also when it is taken for a retrain request |
| Link.PumpKeeps | src/call/sm_call.c:373-487 | moving bytes to the stage and out keeps it |
| Link.BytesInBytesOut | src/call/sm_call.c:98-135 | end to end: the bytes written are a prefix of the bytes accepted unless the program discarded some |
| Link.NothingLost | src/call/sm_call.c:98-135 | with queue and line empty every accepted byte has come out |
| Link.DiscardsWhen | src/serial/sm_async.c:63-66 | bytes are discarded if and only if 4096 are held before the last bit of a symbol or the stage has no room |
| Delivery.PumpWrites | src/call/sm_call.c:373-487 | a pump takes up to 256 bytes from the deframer and, unless more than 4096 stand ready, writes exactly as many of those ready as the PPP side takes |
| Delivery.PumpOverflows | src/call/sm_call.c:469-484 | if more do the first 4096 are kept and the loss is recorded |
| Delivery.PumpEmptiesStage | src/call/sm_call.c:341-370 | a PPP side that takes everything leaves nothing staged |
| Delivery.PumpsDeliver | src/call/sm_call.c:341-370 | with queue and line empty, pumps answered in full write every accepted byte if and only if there are enough of them |
| Delivery.EverythingGetsThrough | src/call/sm_call.c:98-135 | fewer than 4096 bytes pushed, sent, received with mild noise and pumped are all written, in order, unless a symbol was taken for a retrain request |
| Call.Session.GetBit | src/call/sm_call.c:98-105 | the oldest queued bit, or an idle one |
| Call.Session.PutBit | src/call/sm_call.c:107-135 | a bit reaches the deframer only in data mode |
| Call.Session.Retrained | src/call/sm_call.c:150-161 | a retrain drops partial state and leaves data mode |
| Call.Session.Flush | src/call/sm_call.c:341-370 | partial writes take bytes from the front and keep the rest in order |
| Call.Session.AppendToStage | src/call/sm_call.c:469-484 | what fits is appended, the rest is counted as dropped |
| Call.Session.Pump | src/call/sm_call.c:435-487 | one pump moves at most 256 bytes on, as module Link specifies it |
| Fft.NextReversed | tools/gen_filters.py:64-69 | the carry loop turns the reversal of i into the reversal of i + 1 |
| Fft.Permute | tools/gen_filters.py:63-71 | the swaps put every element at its bit-reversed place |
| Fft.ReversedIsLevel | tools/gen_filters.py:63-71 | the bit-reversed input is the transform's lowest level |
| Fft.Butterflies | tools/gen_filters.py:77-85 | one block in place, the twiddle accumulated by multiplication, is the combination of its halves |
| Fft.RunPass | tools/gen_filters.py:77-85 | a pass over all blocks |
| Fft.PassLevel | tools/gen_filters.py:73-86 | a pass takes one level of transformed blocks to the next |
| Fft.Transform | tools/gen_filters.py:60-89 | the array becomes its recursive transform, scaled when the inverse is asked for |
| Fft.FastIsTransformed | tools/gen_filters.py:60-89 | the recursive transform is the sum of a[j] w^(jk), for every power of two and every input |
| Fft.Orthogonal | tools/gen_filters.py:75-76 | powers of the root against powers of its inverse sum to n or zero |
| Fft.InverseUndoes | tools/gen_filters.py:87-93 | the inverse after the forward transform is the identity |
| ComplexFft.DivisionByN | tools/gen_filters.py:87-89 | over complex numbers dividing by n undoes adding n times |
| ComplexFft.QuarterTurns | tools/gen_filters.py:75-76 | quarter turns either way are principal roots of order 4 |
| Complex.ComplexLawful | tools/gen_filters.py:81-85 | pairs of reals with the complex operations satisfy the ring laws used |
| SpscRing.SlotIsRemainder | src/audio/sm_ring.c:44-62 | a slot is the counter modulo the capacity |
| SpscRing.InvAlways | src/audio/sm_ring.c:24-92 | every access of producer or consumer, in any order, keeps the ring's invariant |
| SpscRing.ReadsArePrefix | src/audio/sm_ring.c:24-92 | what is read or dropped is position by position what was written, and head - tail never exceeds the capacity |
| SpscRing.WriteGoesThrough | src/audio/sm_ring.c:44-62 | whatever the consumer does meanwhile, a write publishes as many samples as there was room for when it began, once it has stored them all, and nothing before that |
| SpscRing.ReadGoesThrough | src/audio/sm_ring.c:64-83 | whatever the producer does meanwhile, a read takes as many samples as had been published when it began, in order |
| SpscRing.DropGoesThrough | src/audio/sm_ring.c:85-102 | a drop or a clear gives up as many as had been published when it began |
| SpscRing.SampleRing.constructor | src/audio/sm_ring.c:6-14 | a new ring is empty |
| SpscRing.SampleRing.CountReadable | src/audio/sm_ring.c:24-36 | the number of readable samples |
| SpscRing.SampleRing.Write | src/audio/sm_ring.c:44-62 | appends as many samples as there is room for and says how many |
| SpscRing.SampleRing.Read | src/audio/sm_ring.c:64-83 | takes up to `len` samples from the front |
| SpscRing.SampleRing.Drop | src/audio/sm_ring.c:85-92 | removes up to `len` samples from the front |
| SpscRing.SampleRing.Clear | src/audio/sm_ring.c:94-102 | leaves the ring empty |
| SpscRing.SampleRing.Peek | src/audio/sm_ring.c:104-113 | a contiguous run at the front: all of it, or up to the end of the buffer |
| AstSocket.HeaderIs | src/ast_socket/sm_ast_socket.c:277-291 | a message is its kind, its length with the higher byte first, and its payload |
| AstSocket.Wire.Receive | src/ast_socket/sm_ast_socket.c:139-170 | at most the wanted bytes from the front of the stream; zero exactly for a time-out and minus one exactly for a failure or the end, after any number of interruptions |
| AstSocket.Reader.ReadHeader | src/ast_socket/sm_ast_socket.c:183-204 | collects three header bytes across calls |
| AstSocket.Reader.Read | src/ast_socket/sm_ast_socket.c:172-238 | reports exactly one whole message or keeps a part of one; never takes a byte beyond it; zero after a time-out and minus one after a failure or the end |
| AstSocket.FirstMessage | src/ast_socket/sm_ast_socket.c:277-291 | a whole message at the front of a written stream is the first one written |
| AstSocket.DeliversInOrder | src/ast_socket/sm_ast_socket.c:172-238 | for every chunking and every time-out the messages come out as written, in order, also those longer than the buffer |
| AstSocket.NothingWithheld | src/ast_socket/sm_ast_socket.c:172-238 | once every byte written is consumed every message has come out and nothing is held |
| AstSocket.OutWire.SendAll | src/ast_socket/sm_ast_socket.c:240-275 | sends all bytes in order, or a prefix of them and fails |
| AstSocket.OutWire.Write | src/ast_socket/sm_ast_socket.c:277-291 | sends one encoded message; refuses one over 65535 bytes |
| AstSocket.EncodeAllSnoc | src/ast_socket/sm_ast_socket.c:277-291 | messages written one after the other make up the stream of all of them |
| Playout.AlwaysConserved | src/sip/sm_sip.c:572-592 | over every run the frames entered are an ordered merge of those fed and dropped, followed by those waiting |
| Playout.EnteredAre | src/sip/sm_sip.c:572-592 | the frames entered are the packets, one for each, its first 1024 samples |
| Playout.PacketWaits | src/sip/sm_sip.c:580-591 | a packet is kept unless 31 frames wait; then the oldest of them is given up for it |
| Playout.TicksHand | src/sip/sm_sip.c:673-693 | each tick hands on the next frame waiting, or else as many zeros as the newest frame is long, which is counted |
| Playout.CountersAddUp | src/sip/sm_sip.c:644-646 | sequence number and timestamp are their starts plus packets and samples, modulo 2^16 and 2^32 |
| Playout.EnqueueSlots | src/sip/sm_sip.c:580-591 | head and tail of the 32-slot ring: append, giving up the oldest at 31 |
| Playout.Bridge.EnqueueRx | src/sip/sm_sip.c:572-592 | appends the frame, cut to 1024 samples, and counts a drop exactly when the ring was full |
| Playout.Bridge.TakeFrame | src/sip/sm_sip.c:673-693 | the oldest frame, or silence of the last frame's length |
| Playout.Bridge.SendRtp | src/sip/sm_sip.c:619-646 | the packet carries the counters before the step, and the samples clipped to a packet |
| Playout.Bridge.Serve | src/sip/sm_sip.c:572-693 | a bridge over any call hands on the specified frames and ends in the specified state, with its frames conserved |
| Relay.RoundConserves | src/ppp/sm_pppd.c:194-228 | from read = written + held: the copy a round makes keeps it if and only if it fits, and a round whose read fits keeps it |
| Relay.OrderlyRunsFit | src/ppp/sm_pppd.c:168-181 | reads made only when asked for always fit, over every run |
| Relay.WritesPrefix | src/ppp/sm_pppd.c:163-265 | over every run each way writes a prefix of what it read and waits on exactly the side that can move |
| Relay.DrainProgress | src/ppp/sm_pppd.c:213-228 | a write that takes something leaves less to move |
| Relay.RoundMoves | src/ppp/sm_pppd.c:194-228 | what a round reads joins what is pending, and as many of all of these are written as the other side takes |
| Relay.RoundsDrain | src/ppp/sm_pppd.c:213-228 | rounds that bring nothing new empty the buffer if and only if the other side takes as much as was pending |
| Relay.ThirdHangUpReadOverflows | src/ppp/sm_pppd.c:194-212 | three reads on hang-ups with nothing written no longer fit |
| Relay.Buffer.TakeIn | src/ppp/sm_pppd.c:205-211 | what was read is copied behind what is held, if it fits, and counted |
| Relay.Buffer.PutOut | src/ppp/sm_pppd.c:213-228 | what was accepted leaves; an emptied buffer starts over |
| Relay.Shim.Poll | src/ppp/sm_pppd.c:163-265 | one round moves both ways as specified and mixes nothing |
| SipText.ValuePrinted | src/sip/sm_sip.c:94-108 | a printed value reads back trimmed |
| SipText.ValueIsTrimmed | src/sip/sm_sip.c:94-108 | a value that was not cut is its own trimming |
| SipText.ValueStrips | src/sip/sm_sip.c:94-108 | a value is stored without the blanks around it, as far as it fits its field |
| SipText.ExtractTagIs | src/sip/sm_sip.c:110-128 | the tag is what stands behind the first "tag=", up to a delimiter |
| SipText.AtoiDecimal | src/sip/sm_sip.c:261-264 | a printed number reads back |
| Sip.SepAfterLines | src/sip/sm_sip.c:139-155 | the body of a printed message is found where the printer put it |
| Sip.ScanPrinted | src/sip/sm_sip.c:192-208 | the parser's header lines are the printed lines |
| Sip.ParseFits | src/sip/sm_sip.c:130-280 | every field of every parsed text fits its buffer, every header field is free of line ends, and From and To come with their tags |
| SipRequest.RequestStarts | src/sip/sm_sip.c:158-190 | the first word of a request's start line is the method and the second the URI, each cut to its field, whatever headers and body follow |
| SipRequest.RequestReads | src/sip/sm_sip.c:158-278 | a request with all its headers is stored header by header, each in its own field |
| SipRequest.CompactForms | src/sip/sm_sip.c:210-250 | the short forms of the header names |
| SipRequest.CaseDoesNotMatter | src/sip/sm_sip.c:210-264 | header names are read in upper and lower case alike |
| SipRequest.ContentLengthRules | src/sip/sm_sip.c:261-278 | of a body only as much is kept as its length says, when that is less, and 4096 bytes at most |
| Sip.ResponseReadsBack | src/sip/sm_sip.c:377-415 | for every request and every response that fits, parsing the response gives the status, the Via list in order, From, Call-ID and CSeq trimmed, the body, and To as received or with only a tag appended |
| Sip.FieldsReadBackExactly | src/sip/sm_sip.c:377-415 | each of those fields is unchanged if and only if it does not end in a blank or carriage return |
| Sip.ToTagReadsBack | src/sip/sm_sip.c:396-400 | the tag added is read back if and only if To holds no "tag=" and leaves room for it |
| Sip.CutCSeqUnclean | src/sip/sm_sip.c:104-107 | a text whose CSeq is cut behind a blank, so that it does not read back |
| Sip.LongToLosesTag | src/sip/sm_sip.c:396-400 | a request without a tag whose To is so long that the added tag does not read back |
| SipParser.FindEol | src/sip/sm_sip.c:83-92 | the first line end, or the end of the range |
| SipParser.CopyLineValue | src/sip/sm_sip.c:94-108 | the trimmed, cut value as a C string |
| SipParser.CopyTag | src/sip/sm_sip.c:110-128 | the tag up to its delimiter, at most 63 characters |
| SipParser.FindBody | src/sip/sm_sip.c:139-155 | the search loop finds the end of the header |
| SipParser.Message.ReadHeaders | src/sip/sm_sip.c:192-264 | the pointer loop handles exactly the lines of the header, in order |
| SipParser.Message.ParseSip | src/sip/sm_sip.c:130-280 | the message filled in place is the specified one |
| SipParser.Message.BuildResponse | src/sip/sm_sip.c:377-415 | the text appended piece by piece is the specified response |

## Left out

* Floating-point signal processing: carrier loop, equaliser, gain control, power meter, oscillator, transmit gain and guard tone. Received points, detector signs and carrier events are arbitrary instead.
* The conversion of very large floats to int in the slicer: coordinates are reals, truncated and clamped without overflow.
* The numeric filter coefficients: the shaper is proved for every prototype.
* The rounding of the FFT's twiddles: it is proved for exact roots.
- Fft.Transform: assumes an exact ring and takes the division by n as multiplication by a given inverse, because the floating-point rounding is not modelled.
- Link.BytesInBytesOut: starts from a synchronised link in data mode, which Handover reaches from training; the return to data mode after a retrain is not part of it, because the code clears the deframer there.
- Shaper.PulseShaper.Produce: leaves out the early return after shutdown, because no symbol is fetched from then on.
- Relay.WritesPrefix: says nothing about bytes still held when one side closes, because the program exits without writing them.
- Relay.Shim.Poll: covers rounds whose reads fit; after one that does not, the program counts bytes it did not copy and then writes from beyond its buffer, so no content is defined.
- AstSocket.Reader.Read: for a caller's buffer of at most 4096 bytes, because the code copies that many bytes out of a buffer of 4096.
- SpscRing.ReadsArePrefix: assumes that accesses take effect in one order seen by both sides; weaker memory orders and the mutex mode are not modelled.
- Sip.ResponseReadsBack: extra headers are whole lines that are no Via, From, To, Call-ID, CSeq, Content-Type or Content-Length, which is what the callers pass, and the text fits the buffer of 4096 bytes.
- SipParser.Message.BuildResponse: makes the whole text; a response over 4096 bytes is not modelled, because the next append to the full buffer is given a negative size and has no defined effect.
- SipParser.Message.ParseSip: a number is unbounded, a status line of seven characters has status 0 and no byte behind the text is read, where the code would read on.
- Playout.Bridge.SendRtp: leaves out payload encoding and header bytes other than the counters.
* Replies of the audio daemon other than audio, and the hang-up they may ask for.
* SIP request handling (REGISTER, OPTIONS, INVITE, BYE), SDP, RTP header parsing, and G.711, a finite table.
* V.8, V.34 and the external modem engine: wrappers around code that is not part of this model.
* Sockets, poll, fork, clocks, logging and capture files: they appear as schedules or not at all.
* Bulletin board, doors, storage, configuration and the analysis tools: easy members only.
