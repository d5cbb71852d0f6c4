# A verified model of the signal-call-tunnel and its voice-test client

This project models, in Dafny, the parts of the repository whose correctness lives in runs
rather than in single calls, and proves what they promise. `dafny verify dfyconfig.toml` checks
everything.

## What is modelled

**The pipe audio device** (`Pcm`, `PipeBuffers`, `Device`, `Iteration`, `PlayoutWire`,
`CaptureStream`, `Pacing`, `Clock`). The device exchanges 48 kHz, 16-bit little-endian PCM with a peer over a
non-blocking socket, in 10 ms windows, through two buffers that drop their oldest samples.
`PipeBuffers` and `Clock` hold the loops themselves, changing byte buffers in place; each is
proved equal to a function of what the outside answers. `Device.Tick` is one iteration as such a
function, and `Device.Run` a whole run. The socket is an adversary: every iteration comes with an
arbitrary accept result, an arbitrary script of write answers (room for some bytes, would block,
error), an arbitrary script of read answers (a chunk of at most 4096 bytes, would block, error,
end of stream), arbitrary flags and an arbitrary list of pulled samples. The state carries
histories: samples queued, bytes written, cap drops with the wire position at which they happened,
bytes received on each connection, and the fate of every byte that left the capture buffer.

**The device's three threads** (`Lifecycle`, `WarmupGate`, `Shutdown`, `ModuleEvents`, `LoopOrder`, `Liveness`).
The module worker, the control thread and the clock loop are interleaved one shared access at a time, with
FIFO channels and sequentially consistent flags. The log records every store and load of a
flag, every pull and every push, in the order in which they happen. `Liveness` is about infinite schedules in
which no thread is passed over forever.

**The Goertzel detector** (`Goertzel`, `Orthogonality`, `ToneDetector`), over exact reals. `c` and `s` with
`c * c + s * s == 1` stand for the cosine and sine of the bin's angle, and a number whose square is
the argument stands for the result of `math.sqrt`.

**The JSON-RPC client** (`Framing`, `Mailbox`, `CallWaits`, `SignalRpc`). `SignalRpc.Client` has
the fields of the Python class and its methods change them in place; a `LineReader` is one run of
the line generator, which a caller may abandon or re-enter. Ghost fields say which bytes were
received, which lines were handed out and where each message went. `Mailbox` and `CallWaits` are
the mathematics of those places.

**The tunnel's control channel** (`Bytes`, `Options`, `Base64`, `Json`, `Platform`, `Callbacks`, `Stdout`,
`Commands`, `EventLoop`, `CommandTrace`, `Relay`). Event printing is modelled text by text, with the literal
fragments of the source, against an independent JSON value, printer and parser (RFC 8259) and
base64 (RFC 4648, section 4). The printer, like the source, escapes nothing; the parser knows the whole
grammar, with insignificant space, literal names, all numbers and every escape (`EscapedIsRead`: every
string is read from its escaped text). `Stdout` interleaves platform callbacks, forwarder thread, main loop
and writer thread. `EventLoop.Tunnel` is the main loop with its variables; `CommandTrace` puts the
reader thread and the main loop side by side. `Relay` joins the printing and the reading side: one
tunnel's line, a parent's command, another tunnel's call.

## Where code and prose differ

The model follows the code.

- The comment on `cap_buffer` says the buffer never exceeds `max`. It can hold `max + 1` bytes:
  `CapShape` says exactly when, `CapCanExceedMax` shows it at the device's own limit.
- The comment on `drain_playout` speaks of preserving sample alignment. The stream stays aligned
  (even wire offsets always carry low bytes), but one sample can be torn: `PairIntactIffNoOddDrop`
  says exactly when, `TornSample` is a run in which the peer reads a sample that was never queued.
- `fill_capture` leaves exactly the cap of everything buffered and received if and only if something
  was received or the buffer was within the cap already (`FillIsChunkIndependent`); in a run it always is
  (`FillIsCap`).
- A response that `read_event` puts aside is never found by `_wait_response`, which looks only at
  the socket; `ReadOnce` says so for every message once it has been read.
- `to_json` does not escape the strings of state changes and hangups. `ReadBackIffPlain` says exactly
  which events are read back, and `QuoteBecomesReason` shows two events with one line: a state that holds
  a quote is read as another state with a reason.
- An outgoing ICE event holds its candidates as objects; the reader of incoming commands wants bare
  strings. `PrintedCandidatesUnread` states what happens if one is handed over as the other.
- README.md of the repository describes a control socket with an `auth` message; the code uses
  standard input and output and knows no such message.

## Model

| member | source | states |
|---|---|---|
| Pcm.LittleEndianRoundTrip | signal-call-tunnel/src/pipe_audio.rs:180-182 | `to_le_bytes` and `from_le_bytes` are inverse in both directions, and the two bytes are the low and high part of the two's complement |
| Pcm.LowByteFirst | signal-call-tunnel/src/pipe_audio.rs:180-182 | in the encoded stream each sample's low byte comes first |
| Pcm.DecodeEncode | signal-call-tunnel/src/pipe_audio.rs:277-287 | decoding an encoded sample list, with or without a trailing odd byte, returns the list |
| PipeBuffers.CapBuffer | signal-call-tunnel/src/pipe_audio.rs:228-234 | the in-place cap leaves exactly the suffix after dropping the overflow rounded down to whole samples |
| PipeBuffers.CapShape | signal-call-tunnel/src/pipe_audio.rs:227-234 | a capped buffer is a suffix, an even number of bytes shorter, between `max` and `max + 1` long if anything was over; at most `max` if and only if the overflow is even |
| PipeBuffers.CapCanExceedMax | signal-call-tunnel/src/pipe_audio.rs:150-234 | with one byte more than the device's limit nothing is dropped, so the comment's bound fails |
| PipeBuffers.CapAbsorbs | signal-call-tunnel/src/pipe_audio.rs:228-271 | capping before more bytes arrive does not change the capped result |
| PipeBuffers.QueueSamples | signal-call-tunnel/src/pipe_audio.rs:180-182 | the queuing loop appends the little-endian encoding of the pulled samples |
| PipeBuffers.DrainPlayout | signal-call-tunnel/src/pipe_audio.rs:238-253 | on success and on error alike, bytes sent followed by bytes kept are the old buffer; how many are sent and when an error surfaces, for every script of partial writes |
| PipeBuffers.UpToFirstRefusal | signal-call-tunnel/src/pipe_audio.rs:238-253 | the socket's answers count up to the first refusal, what they take adds up, and only an error there is an error |
| PipeBuffers.FillCapture | signal-call-tunnel/src/pipe_audio.rs:258-273 | the buffer afterwards is the cap of everything received, and the result how the reads ended, for every split into chunks |
| PipeBuffers.UpToFirstEnd | signal-call-tunnel/src/pipe_audio.rs:258-273 | the reads count up to the first that brings nothing, their chunks add up, and that one decides between drained, end of stream and failure |
| PipeBuffers.FillIsChunkIndependent | signal-call-tunnel/src/pipe_audio.rs:258-273 | it equals `cap_buffer(old ++ received)` if and only if something arrived or nothing was over the limit before |
| PipeBuffers.TakeWindow | signal-call-tunnel/src/pipe_audio.rs:277-287 | returns the oldest whole samples padded with silence and removes exactly those |
| PipeBuffers.WindowsRoundTrip | signal-call-tunnel/src/pipe_audio.rs:180-287 | for every sample list and every k, k windows of its encoding are its first 480k samples then silence; a trailing odd byte is never consumed |
| Clock.AcceptStep | signal-call-tunnel/src/pipe_audio.rs:160-174 | a new peer clears both buffers; otherwise nothing changes |
| Clock.PlayoutStep | signal-call-tunnel/src/pipe_audio.rs:176-192 | pulling, queuing, capping and draining in place agree with the model of one iteration |
| Clock.CaptureStep | signal-call-tunnel/src/pipe_audio.rs:194-214 | filling and delivering in place agree with the model of one iteration; one window is handed over if both recording flags were seen set, else none |
| Clock.ClockLoop | signal-call-tunnel/src/pipe_audio.rs:139-224 | the whole loop pushes to WebRTC, writes to the peer and sleeps exactly as the run model says, and pushes as many windows as iterations saw both recording flags set |
| Clock.WindowPerSendingIteration | signal-call-tunnel/src/pipe_audio.rs:206-213 | over every run, the windows pushed are as many as the iterations that saw `recording` and `send_to_webrtc` both set |
| Iteration.PeerAndQueue | signal-call-tunnel/src/pipe_audio.rs:160-185 | a connection begins exactly when none was there and a peer has come, with empty buffers; pulled samples are queued exactly if `playing` was seen and a peer is there |
| Iteration.OfferedIsNewest | signal-call-tunnel/src/pipe_audio.rs:176-234 | what is offered to the peer is what was left over and then the pulled samples, less whole samples at the front only if that is over the limit, and no more of them than needed |
| Iteration.PeerStays | signal-call-tunnel/src/pipe_audio.rs:186-273 | the peer is sent the oldest bytes as far as the socket takes them; the connection is given up exactly on a write error met with bytes left to send, or when the reads end in anything but "would block" |
| Iteration.WindowIsOldest | signal-call-tunnel/src/pipe_audio.rs:194-287 | the window pushed holds, sample by sample, the oldest audio including what was read in the same iteration, then zeros; just those samples leave the buffer, and none if a flag is unset |
| Iteration.BuffersBounded | signal-call-tunnel/src/pipe_audio.rs:149-234 | over every run neither buffer holds more than 7681 bytes |
| CaptureStream.FillIsCap | signal-call-tunnel/src/pipe_audio.rs:194-273 | in every run `fill_capture` leaves exactly `cap_buffer(old ++ received)` |
| PlayoutWire.QueueKeeps | signal-call-tunnel/src/pipe_audio.rs:177-185 | queuing with a cap drop keeps the alignment invariant and moves no byte already on the wire |
| PlayoutWire.SendKeeps | signal-call-tunnel/src/pipe_audio.rs:238-253 | a write of any number of bytes keeps the alignment invariant |
| PlayoutWire.PlayoutAlignment | signal-call-tunnel/src/pipe_audio.rs:160-253 | over every run: wire byte q is the low or high byte, by parity of q, of queued sample (q + D)/2, D being the bytes dropped before it, even and non-decreasing; written + dropped + buffered = queued; at most `max + 1` bytes wait |
| PlayoutWire.PairIntactIffNoOddDrop | signal-call-tunnel/src/pipe_audio.rs:183-253 | wire bytes 2k and 2k+1 belong to one queued sample if and only if no drop happened after exactly 2k+1 bytes |
| PlayoutWire.IntactPairDecodes | signal-call-tunnel/src/pipe_audio.rs:176-253 | such a pair decodes to that sample |
| PlayoutWire.TornSample | signal-call-tunnel/src/pipe_audio.rs:177-253 | a concrete run of ten iterations in which the peer reads a sample that was never queued |
| CaptureStream.TickKeeps | signal-call-tunnel/src/pipe_audio.rs:157-214 | every iteration keeps: fates tile the received streams, the buffer is the untiled end of the current one |
| CaptureStream.CaptureConservation | signal-call-tunnel/src/pipe_audio.rs:160-287 | over every run: bytes received = 2 × real samples pushed + bytes dropped + bytes cleared + bytes buffered |
| CaptureStream.CaptureFidelity | signal-call-tunnel/src/pipe_audio.rs:194-287 | over every run, every window pushed is the decode of a sample-aligned range of one connection's bytes padded with silence |
| CaptureStream.FatesInOrder | signal-call-tunnel/src/pipe_audio.rs:160-287 | the ranges of different fates follow each other in stream order, so nothing is pushed twice or out of order |
| CaptureStream.ExactlyOneFate | signal-call-tunnel/src/pipe_audio.rs:160-287 | every byte of every connection is still buffered or lies in exactly one fate |
| CaptureStream.CaptureLatency | signal-call-tunnel/src/pipe_audio.rs:149-287 | a whole sample left by `fill_capture` is pushed, dropped or cleared within eight delivering iterations, whatever happens meanwhile |
| CaptureStream.SevenDeliveriesAreNotEnough | signal-call-tunnel/src/pipe_audio.rs:149-287 | the bound of eight is exact |
| Pacing.NoRunaway | signal-call-tunnel/src/pipe_audio.rs:147-222 | for any work and sleep durations, iteration j starts at least j - i - 1 ticks after iteration i |
| Pacing.WindowsPerInterval | signal-call-tunnel/src/pipe_audio.rs:147-222 | a span of length T contains at most T / 10 ms + 2 starts |
| Pacing.TwoWindowsAtOnce | signal-call-tunnel/src/pipe_audio.rs:216-222 | two iterations can start at the same instant, so the extra windows are needed |
| Pacing.NoDriftIffNoOverrun | signal-call-tunnel/src/pipe_audio.rs:155-222 | the deadline is exactly start + n ticks if and only if no iteration overran, and never earlier |
| Pacing.SleepEndsOnDeadline | signal-call-tunnel/src/pipe_audio.rs:155-222 | a sleep lasts at most 10 ms and ends on the deadline, which is 10 ms after the one before or, after an overrun, now |
| Pacing.SteadyCadence | signal-call-tunnel/src/pipe_audio.rs:147-222 | if no iteration works longer than 10 ms and sleeps are exact, iteration j starts exactly j times 10 ms after the first |
| WarmupGate.PushOnlyWhenSending | signal-call-tunnel/src/pipe_audio.rs:94-213 | in every interleaving each push follows a load of `send_to_webrtc` that saw the value of the latest StartRecording, which was true, with no other access of the loop in between |
| WarmupGate.AtMostOnePushAfterStop | signal-call-tunnel/src/pipe_audio.rs:111-213 | after a StopRecording store at most one window is pushed before recording is stored true again |
| WarmupGate.NextKeepsGate | signal-call-tunnel/src/pipe_audio.rs:107-214 | every step of every thread keeps the gate invariant |
| LoopOrder.LoadSeesLatestStore | signal-call-tunnel/src/pipe_audio.rs:94-206 | in every interleaving each load of a flag sees the latest value stored to it |
| LoopOrder.LoadsAreActedUpon | signal-call-tunnel/src/pipe_audio.rs:157-214 | in every interleaving the loop acts on what it loads: after `playing` true it pulls, after `recording` true it loads `send_to_webrtc`, after that true it pushes, otherwise it goes on without; only the latest access can lack its successor, and then the loop stands right before it |
| LoopOrder.RoundPushesIffSending | signal-call-tunnel/src/pipe_audio.rs:157-214 | after any run, one undisturbed round of the loop pulls exactly if `playing` is set and pushes a window exactly if both recording flags are set |
| Shutdown.HandledIsPrefix | signal-call-tunnel/patches/ringrtc-custom-audio-backend.patch:184-239 | the events the control thread handles are an in-order prefix of the translated module events up to the first Terminate, closed by one Terminate; all of them once it has left its loop |
| Shutdown.FinalTerminateIsQueued | signal-call-tunnel/patches/ringrtc-custom-audio-backend.patch:232-235 | a control thread still waiting when the sender is dropped always finds an event, so it never sees a closed channel before a Terminate |
| Shutdown.FlagsFollowEvents | signal-call-tunnel/src/pipe_audio.rs:107-125 | in every interleaving the flags are the fold of the handled events, up to the one store in flight |
| ModuleEvents.PushOnlyAfterStartRecording | signal-call-tunnel/patches/ringrtc-custom-audio-backend.patch:204-213 | warm-up across all three threads: the clock loop's access right before a push is a load that saw true, and the latest StartRecording or WarmupRecording of the module whose store that load had seen was a StartRecording |
| ModuleEvents.CaughtUpFlags | signal-call-tunnel/patches/ringrtc-custom-audio-backend.patch:198-216 | in every interleaving, once nothing is in flight, the playing, recording and send flags are what the module's events so far ask for |
| LoopOrder.AskedMeansPushed | signal-call-tunnel/patches/ringrtc-custom-audio-backend.patch:198-216 | after any run with nothing in flight, the next round pushes a window exactly if the module's events so far ask for recording that sends, and pulls exactly if they ask for playout |
| Liveness.NextLowers | signal-call-tunnel/src/pipe_audio.rs:101-157 | once the module ends, every step lowers a measure of remaining work or leaves it and the helpful thread unchanged; a step of the helpful thread lowers it |
| Liveness.ShutdownCompletes | signal-call-tunnel/patches/ringrtc-custom-audio-backend.patch:184-239 | under every fair infinite schedule in which the module posts Terminate or closes its channel, all three threads end |
| Liveness.DoneOnlyAfterEnding | signal-call-tunnel/src/pipe_audio.rs:101-134 | conversely they never end otherwise |
| Goertzel.PhasorIsTurnedBin | voice-test/lib/audio.py:37-45 | after any samples the two-word memory stands for the complex DFT sum, rotated |
| Goertzel.EnergyIsBinNorm | voice-test/lib/audio.py:33-48 | the argument of the square root is the squared modulus of the plain complex sum, hence never negative |
| Goertzel.BinBound | voice-test/lib/audio.py:33-48 | Cauchy-Schwarz: the squared modulus is at most the number of samples times the sum of squares |
| Goertzel.GoertzelEnergy | voice-test/lib/audio.py:24-48 | the loop over PCM bytes computes the squared modulus of the reference bin |
| Goertzel.MeanSquare | voice-test/lib/audio.py:117-126 | the loop of `rms_level` computes the mean square, zero for empty input |
| Goertzel.MagnitudeAtMostRms | voice-test/lib/audio.py:24-126 | for every PCM input and every angle the magnitude is between zero and the RMS level |
| Goertzel.RmsRange | voice-test/lib/audio.py:117-126 | the RMS level is at most 1 and zero exactly for silence |
| Goertzel.SteadyLevel | voice-test/lib/audio.py:24-126 | a steady sample v measures exactly abs(v) / 32768, as RMS level and as magnitude at angle zero: the bound by the RMS level is reached |
| Orthogonality.WholeTurnsClose | voice-test/lib/audio.py:33-34 | an angle of a whole number of turns over the samples, as rounding `k` to an integer gives it, meets the condition of the two rows below |
| Orthogonality.OrthogonalBinBound | voice-test/lib/audio.py:33-48 | for such an angle with nonzero sine the bin's cosines and sines are orthogonal, and twice its squared modulus is at most the number of samples times the sum of squares |
| Orthogonality.MagnitudeOnBin | voice-test/lib/audio.py:24-126 | on such a bin the squared magnitude is at most half the squared RMS level |
| ToneDetector.ScanPeak | voice-test/lib/audio.py:63-75 | the scan returns the maximum over exactly the in-band multiples of the step, or zero |
| ToneDetector.ScanCovers | voice-test/lib/audio.py:65-71 | the frequencies scanned are the 21 from 100 below to 100 above the expected one, ten apart, from 50 to below half the rate |
| ToneDetector.FloorIsMean | voice-test/lib/audio.py:77-89 | the noise floor times the number of noise frequencies in band is the sum of their magnitudes, the frequencies being 600 and 400 below and above the expected one; with none in band it is zero |
| ToneDetector.VerdictIs | voice-test/lib/audio.py:84-96 | the decision without a division, on either side of the vanishing floor |
| ToneDetector.DetectTone | voice-test/lib/audio.py:51-96 | on PCM bytes and their magnitudes: short input is rejected; otherwise, with a noise floor of at least 1e-8, a tone is detected exactly if the peak is at least the threshold times the floor, and with a smaller one exactly if the peak is above 0.001; the peak is at most the RMS level of the same bytes, and a positive decision bounds that level from below |
| ToneDetector.ComparedLevelsAtMostRms | voice-test/lib/audio.py:69-126 | every level compared, the peak of the scan and the noise floor, is at most the RMS level of the same bytes |
| Framing.LinesConcat | voice-test/lib/signal_rpc.py:40-57 | the lines of a stream do not depend on where it is cut |
| Framing.RestIsTail | voice-test/lib/signal_rpc.py:43-53 | what is left over holds no newline and is the end of the stream |
| Framing.NewlineEndsLine | voice-test/lib/signal_rpc.py:44-57 | a newline ends a line, which is handed out stripped unless it is blank; without a newline nothing is |
| Framing.StripRemovesBlanks | voice-test/lib/signal_rpc.py:46-55 | stripping removes the ASCII blanks at both ends, all of them and nothing else |
| SignalRpc.Client.NextBuffered | voice-test/lib/signal_rpc.py:43-47 | splitting off a buffered line keeps: lines handed out plus lines still buffered are the lines of all bytes received |
| SignalRpc.Client.Resume | voice-test/lib/signal_rpc.py:40-57 | a fresh, abandoned or re-entered generator hands out the next line of the stream; it ends or times out only when the socket did so after nothing but data, and every complete line received has been handed out |
| SignalRpc.Client.Send | voice-test/lib/signal_rpc.py:31-38 | each request gets the next number, used up even if the socket fails, so no two requests carry the same one |
| SignalRpc.Client.WaitResponse | voice-test/lib/signal_rpc.py:59-74 | buffer and places move as the model of waiting says; the result, value or error, is the last message read, and its id is the one requested; no result only if the stream ended, a timeout only if the socket timed out, each with every line received handed out |
| SignalRpc.Client.ReadOne | voice-test/lib/signal_rpc.py:114-133 | buffer and places move as the model of reading says; the oldest buffered message comes first, without touching the socket; nothing or a timeout only as the socket said, with every line handed out and only responses put aside |
| SignalRpc.Client.WaitForState | voice-test/lib/signal_rpc.py:135-153 | refines the model of waiting for every sequence of clock readings; the message returned is a callEvent with the target state; every turn began before the deadline; it gives up only at the deadline or when the socket timed out with every line handed out; a malformed line, where Python raises, is told from a timeout |
| Mailbox.CallsKeep | voice-test/lib/signal_rpc.py:59-133 | any mix of calls keeps conservation and order of the places |
| Mailbox.AwaitStopsAtFirst | voice-test/lib/signal_rpc.py:62-70 | waiting takes the first message with the requested id; those before it have another id or none and are buffered in order |
| Mailbox.ReadStopsAtFirst | voice-test/lib/signal_rpc.py:118-133 | reading from the stream hands out the first message that has no id or has a method; those before it have an id and no method and are put aside in order |
| Mailbox.ExactlyOnePlace | voice-test/lib/signal_rpc.py:59-133 | every message that arrived is exactly one of consumed, returned, pending or unread, once; if consumed, then by one of the calls, whose request it matches |
| Mailbox.NotificationsInOrder | voice-test/lib/signal_rpc.py:59-133 | notifications are returned in arrival order and none is skipped |
| Mailbox.EarlierNotificationsReturned | voice-test/lib/signal_rpc.py:114-133 | when a message that is no response has been returned, every earlier notification has been |
| Mailbox.ReadOnce | voice-test/lib/signal_rpc.py:63-70 | a message read without being taken as a response is never taken for one later |
| CallWaits.WaitReturns | voice-test/lib/signal_rpc.py:135-153 | a wait hands out only messages that are no callEvent with the target state and then, if it succeeds, one that is |
| CallWaits.WaitMatchesFirst | voice-test/lib/signal_rpc.py:135-153 | the message matched is a callEvent with the target state, and the first such not returned before |
| CallWaits.WaitsFollowHistory | voice-test/lib/signal_rpc.py:114-153 | over every run of waits and other calls, the successful waits returned events with the states waited for, each arrived later than the one before: a subsequence of history |
| CallWaits.EveryWaitMatchesFirst | voice-test/lib/signal_rpc.py:114-153 | in every such run, each successful wait returns the first event with its state not returned before it began |
| Base64.RoundTrip | signal-call-tunnel/src/platform.rs:66-80 | strict decoding inverts encoding for every byte string |
| Base64.ThreeBytes | signal-call-tunnel/src/platform.rs:63-80 | three bytes are written as four characters of the standard alphabet, six bits each, as in section 4 of RFC 4648 |
| Base64.TwoBytes | signal-call-tunnel/src/platform.rs:63-80 | two bytes at the end are filled up with zero bits and one padding character |
| Base64.OneByte | signal-call-tunnel/src/platform.rs:63-80 | one byte at the end is filled up with zero bits and two padding characters |
| Base64.DecodesOnlyEncodings | signal-call-tunnel/src/control.rs:84-105 | strict decoding of a text yields some bytes if and only if the text is their encoding |
| Json.DecimalDigitByDigit | signal-call-tunnel/src/platform.rs:63-66 | a call id is printed in decimal digits, the most significant first, without a zero in front |
| Json.TextFits | signal-call-tunnel/src/platform.rs:63-110 | whatever a text yields prints no longer than the text, and shorter if it holds a character that needs escaping |
| Json.ValueRoundTrip | signal-call-tunnel/src/platform.rs:63-110 | parsing a printed plain value returns it and stops right behind it |
| Json.TextReadBackIffPlain | signal-call-tunnel/src/platform.rs:63-110 | printed without escaping, a value is read back by a reader of the whole grammar if and only if none of its strings needs an escape |
| Platform.TextIsPrinted | signal-call-tunnel/src/platform.rs:52-113 | the text put together from the source's fragments is one JSON object, printed |
| Platform.InterpretDescribe | signal-call-tunnel/src/platform.rs:52-113 | that object determines the event: kind, call id, blobs, candidates in order |
| Platform.ReadBackIffPlain | signal-call-tunnel/src/platform.rs:52-113 | an event is read back from its line if and only if its free strings need no escaping; then the line is one line |
| Platform.QuoteBecomesReason | signal-call-tunnel/src/platform.rs:102-110 | a state change whose state holds a quote can print the same line as another state with a reason, and is read as that |
| Platform.ToJsonInjective | signal-call-tunnel/src/platform.rs:52-113 | different plain events have different lines |
| Callbacks.StateReadBackIffPlain | signal-call-tunnel/src/platform.rs:378-413 | a call state is known again from the line of its event if and only if its reason needs no escaping |
| Callbacks.SignalLinesDistinct | signal-call-tunnel/src/platform.rs:303-337 | two plain signaling messages have the same line if and only if they are the same, up to the case of a hangup's type |
| Callbacks.SignalReadBack | signal-call-tunnel/src/platform.rs:303-337 | a plain signaling message is read back from its line: call id, kind, bytes, media type and candidates; a hangup's type in lower case |
| Callbacks.LowersCapitals | signal-call-tunnel/src/platform.rs:323-325 | each capital letter becomes its small one, and nothing else changes |
| Stdout.RunKeeps | signal-call-tunnel/src/control.rs:140-386 | every interleaving keeps: the channel begins with `ready`, no event or error line overtakes another or is lost while the writer lives, and the text follows the channel |
| Stdout.StdoutOrder | signal-call-tunnel/src/control.rs:361-386 | under every interleaving and every write failure: output begins with `ready`, goes on with whole channel lines in order, the last perhaps cut off; events are in posting order, error lines in reporting order |
| Stdout.ParentReadsPosted | signal-call-tunnel/src/main.rs:243-348 | when nothing printed needs escaping, the events a parent reads off the output are always the posted ones in order up to some point, and all of them once every thread has caught up |
| Stdout.OutputCatchesUp | signal-call-tunnel/src/control.rs:361-386 | from every run in which no write has failed, turns of the forwarder and the writer alone print everything posted and reported; the parent then reads exactly the posted events if nothing needs escaping |
| Commands.ParseCommand | signal-call-tunnel/src/control.rs:45-125 | every message has a command that the reader turns back into it, byte for byte |
| Commands.FieldsRead | signal-call-tunnel/src/control.rs:45-125 | for every object, what each kind of command is read as, field by field, with the default of every missing or ill-typed field; no message only for an unknown type |
| Commands.ServerRead | signal-call-tunnel/src/control.rs:55-72 | each array item is one server; missing or ill-typed names are empty and URLs that are no array are none |
| Commands.UnknownFieldIgnored | signal-call-tunnel/src/control.rs:45-125 | fields the reader does not know change nothing |
| Commands.BadCandidateSkipped | signal-call-tunnel/src/control.rs:107-120 | a candidate that is no base64 string costs itself only; the others arrive in order |
| Commands.PrintedCandidatesUnread | signal-call-tunnel/src/control.rs:107-120 | candidates in the shape the tunnel prints yield none when read |
| EventLoop.Tunnel.Dispatch | signal-call-tunnel/src/main.rs:265-461 | handling one message, with each early exit, changes peer, calls and error lines as the step model says and nothing else |
| EventLoop.Tunnel.Serve | signal-call-tunnel/src/main.rs:250-462 | the loop over timed receives amounts to the fold over the messages up to termination, disconnection or the first hangup |
| EventLoop.HandledUntilEnd | signal-call-tunnel/src/main.rs:250-462 | a message is handled, in its place, exactly if no turn before it found termination, disconnection or a hangup; a turn without a message changes nothing |
| EventLoop.NothingElseHandled | signal-call-tunnel/src/main.rs:250-462 | no more messages are handled than were received |
| EventLoop.ReadCommands | signal-call-tunnel/src/control.rs:389-415 | the reader passes on exactly the parsable commands before the first unreadable line, in order, or as many of them as the main loop still took |
| EventLoop.LineCounts | signal-call-tunnel/src/control.rs:389-415 | up to the first unreadable line each line counts in its place: a command is passed on, blank, malformed and unknown lines are passed over |
| EventLoop.CallsFollowMessages | signal-call-tunnel/src/main.rs:265-461 | each message that gets as far as the call manager makes exactly the call it asks for, calls are in message order, and there are no others |
| EventLoop.CallsCarryMessages | signal-call-tunnel/src/main.rs:265-461 | the handled message can be read back off each call: same kind, same fields, with the configured call id and device and the active peer for the rest |
| EventLoop.CallMadeIff | signal-call-tunnel/src/main.rs:281-460 | a message makes a call unless it is a proceed without its tracks and source, or an offer or answer without its signaling message |
| EventLoop.FailureReported | signal-call-tunnel/src/main.rs:265-353 | an error line is added exactly when the manager refuses a creation, or a proceed that got that far, with its own text and reason |
| EventLoop.AnswerAndIcePeer | signal-call-tunnel/src/main.rs:231-446 | every answer and ICE call carries the peer of the latest createOutgoingCall or receivedOffer before it, successful or not, or "remote"; and the configured call id |
| CommandTrace.TraceIsFold | signal-call-tunnel/src/main.rs:250-462 | for every interleaving of reader and main loop the calls are the fold over a prefix of the parsable commands up to the first hangup; over all of them once the loop has left by itself |
| CommandTrace.NoiseChangesNothing | signal-call-tunnel/src/control.rs:399-409 | a blank, malformed or unknown line inserted anywhere changes nothing a finished run does, however either run was scheduled |
| CommandTrace.HangupIsLast | signal-call-tunnel/src/main.rs:452-460 | a hangup is the last message handled and the only one |
| Relay.OfferArrives | signal-call-tunnel/src/platform.rs:54-69 | an offer printed by one tunnel and handed on reaches the other's call manager byte for byte, for the peer the command names, which becomes the active one |
| Relay.AnswerArrives | signal-call-tunnel/src/main.rs:393-423 | a printed answer handed on arrives byte for byte, for the active peer |
| Relay.IceArrives | signal-call-tunnel/src/main.rs:424-446 | printed candidates handed on arrive all of them, in order, byte for byte, for the active peer |
| CommandTrace.FairRunFinishes | signal-call-tunnel/src/main.rs:250-462 | under every fair infinite schedule without termination from outside the main loop ends by itself, having made the calls of all parsable commands up to the first hangup |
| CommandTrace.CanFinish | signal-call-tunnel/src/main.rs:250-462 | every run not terminated from outside can be continued to a finished one |

## Left out

- RingRTC, WebRTC, cubeb, SRTP and key derivation: library code. `pull_playout` may return any list of samples and call-manager calls any result.
- Sockets, clocks, threads: scripts of results, instants and schedules given as values. A script of answers that has run out stands for a socket that would block or a receive that times out.
- Memory orders other than sequential consistency; the worker takes a module event and forwards it in one step.
- Floating-point rounding in the detector and the choice of the bin's angle from frequency and sample count: results hold over exact reals for every angle.
- WAV files, `generate_tone` and the log line of `detect_tone`.
- SignalRpc.Client.Send: the request is recorded as number, method and parameters, not as the text that `json.dumps` makes of them; whether the socket takes it is a parameter.
- SignalRpc.Client.WaitForState: exceptions are results here; `params` of the event are part of the message returned.
- Decoding one RPC line (UTF-8 and JSON) is a function parameter that may fail; JSON ids that Python compares equal to an integer without being one count as other ids.
- `_pending_events` is created by the first public call in Python; here it exists from the start. Every public method creates it before use.
- The JSON reader keeps literal names, and numbers other than non-negative integers, as they are written; what a library makes of them is not modelled.
- Parsing the text of a command line is not modelled; a line is blank, malformed, unreadable or a parsed value.
- What a parent does with a printed line before handing it on is not part of the repository; `Relay` assumes that it passes the blob texts on and leaves every other field open.
- Callbacks.SignalLinesDistinct: `to_lowercase` is modelled on ASCII letters, which is all the library's type names contain.
- Call context, media settings and log messages of the main loop; creating tracks and signaling objects is reduced to whether it succeeds.
- The 500 ms pause after a hangup, the configuration line, device enumeration and selection, and process exit.
- Socket file creation and removal, `set_nonblocking` failures (logged only), build scripts and the VPIO patch.
- The emulator, gRPC and end-to-end scripts of voice-test, and the shell scripts: process plumbing with easy claims only.
