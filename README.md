# bmp_traceswo in Dafny

A model of `bmp_traceswo`, a small program that reads the SWO trace output
of a Black Magic Probe over USB and prints it. The program has two parts,
and the model has both:

* **The frame decoder.** Every successful bulk read appends its bytes to one
  persistent byte queue. While the queue holds at least three bytes, two
  header bytes are popped. The window is refused only when the first header
  byte is not `0x02` **and** the second is not `0x08`; a refused window loses
  just those two bytes. Otherwise a third byte is popped and printed.
  In the model this is the pure function `Frames.Decode` and the class
  `Decoder.FrameDecoder`, whose `queue` and `output` fields the methods
  update in place.
* **The acquisition and retry loop.** The program initialises the USB library,
  lists the devices and takes the first whose vendor and product identifiers
  are `1d50:6018`. It opens that device and claims interface 5, then reads
  endpoint `0x85` forever. "No such device" from open, claim or read leads to
  a one-second sleep and a new search; any other open or claim error, a
  failed listing, a failed descriptor query or a failed initialisation ends
  the program with status 1; any other read error retries the read. In the
  model this is the state machine `Session.Step` over `Phase` (Initializing,
  Searching, Opening, Claiming, Connected, Lost, Exited). Its inputs are the
  transport's answers (`Reply`). The class `Program.TraceSwo` runs it with
  the decoder and the 128-byte read buffer.

Files: `config.dfy` (constants), `frames.dfy` (the framing as functions and
lemmas), `decoder.dfy` (the queue as a class), `acquisition.dfy` (device
selection), `session.dfy` (the state machine and its lemmas), `program.dfy`
(the program as a class), `scenarios.dfy` (worked runs).

Main results:

* `Frames.ChunkingInvariance`: what is printed does not depend on how the
  stream is split into reads. `Session.OutputIsDecodedStream`: from program
  start, the output is the decoding of every byte ever received, across all
  losses and reconnections. At most two bytes are left waiting.
* `Acquisition.FindProbe` and the `FirstMatch*` lemmas: the lowest-indexed
  probe is chosen. A failed descriptor query before any probe is found ends
  the search.
* `Session.Step`: the read loop is entered only by a successful claim. Every
  exit has status 1. Only received data touches the queue.

Three points of the code's behaviour that the model keeps as written
(bmp_traceswo.cpp):

* A refused window loses only its two header bytes (lines 126-131). Its third
  byte starts the next window (`Scenarios.WindowExamples`).
* The queue is declared once, outside the loop (line 24), and is never
  cleared. Half a frame read before a loss is completed by the first bytes
  read after reconnecting (`Scenarios.PartialFrameSurvivesReconnection`).
* The window test combines two inequalities with `&&` (line 129), so one
  matching marker byte is enough to accept a window (`Frames.Rejected`).

## Model

| member | source | states |
|---|---|---|
| `Frames.Rejected` | bmp_traceswo.cpp:129 | A window is refused only when its first header byte is not 0x02 and its second is not 0x08. `Scenarios.WindowExamples` shows both one-byte acceptances. |
| `Frames.Decode` | bmp_traceswo.cpp:125-137 | Decoding the queue leaves at most two bytes. A queue shorter than three bytes is left as it is and prints nothing. At least three bytes are consumed per printed byte, so the output is at most a third of the bytes consumed. |
| `Frames.LeftoverIsTail` | bmp_traceswo.cpp:125-137 | The bytes left waiting are the last bytes of the queue, unchanged and in order. |
| `Frames.DecodeAppend` | bmp_traceswo.cpp:118-137 | Decoding `s + c` prints the output of `s`, then the output of `s`'s leftover followed by `c`. It leaves the same bytes waiting. So keeping only the leftover between reads loses nothing. |
| `Frames.FeedAll` | bmp_traceswo.cpp:118-137 | Handling reads one by one: once a chunk has been handled, at most two bytes wait. At least three bytes are consumed per printed byte. `ChunkingInvariance` proves it equal to decoding the concatenated stream. |
| `Frames.FeedAllContinues` | bmp_traceswo.cpp:118-137 | Feeding a list of chunks after a stream `s` continues the decoding of `s` as if the chunks were part of `s`. |
| `Frames.ChunkingInvariance` | bmp_traceswo.cpp:118-137 | Feeding any split of a stream read by read, starting from an empty queue, prints and leaves exactly what decoding the whole stream at once does. |
| `Frames.FramedDecodes` | bmp_traceswo.cpp:125-137 | Any sequence of payload bytes, each framed as `02 08 <payload>`, decodes to exactly those payload bytes in order, with nothing left waiting. (`Frames.Framed` builds the framed stream, three bytes per payload byte.) |
| `Frames.FramedAnySplit` | bmp_traceswo.cpp:118-137 | However a stream of well-formed frames is split into reads, handling the reads one by one from an empty queue prints exactly the payload bytes and leaves nothing waiting. |
| `Frames.AcceptedWindowsInOrder` | bmp_traceswo.cpp:125-137 | The accepted windows the parse visits from offset `p` lie at or after `p` and inside the queue. Each passes the window test. They come in increasing order and do not overlap. |
| `Frames.OutputFollowsParse` | bmp_traceswo.cpp:125-137 | Parsing from offset `p` gives one accepted window per printed byte. The k-th window lies in the consumed part of the queue, and its third byte is the k-th byte printed. |
| `Frames.OutputFollowsWindows` | bmp_traceswo.cpp:125-137 | From the front of the queue: the k-th printed byte is the third byte of the k-th accepted window the decoder parses. The windows pass the test, lie in the consumed part, and are increasing and non-overlapping. |
| `Decoder.FrameDecoder.constructor` | bmp_traceswo.cpp:24 | The queue starts empty, nothing is printed, and the invariant holds. |
| `Decoder.FrameDecoder.Push` | bmp_traceswo.cpp:119 | The byte is appended at the tail of the queue. |
| `Decoder.FrameDecoder.Pop` | bmp_traceswo.cpp:126 | The front byte is returned and removed; the rest of the queue is unchanged. |
| `Decoder.FrameDecoder.PopWindow` | bmp_traceswo.cpp:126-136 | A refused window consumes exactly its two header bytes and prints nothing, so its third byte becomes the front. An accepted window consumes exactly three bytes and prints the third. |
| `Decoder.FrameDecoder.Drain` | bmp_traceswo.cpp:125-137 | The draining loop leaves `Decode(old queue).rest` in the queue and appends `Decode(old queue).out` to the output. |
| `Decoder.FrameDecoder.Receive` | bmp_traceswo.cpp:117-137 | The bytes `dataUp[0..count)` are pushed in order and the queue is drained. At most two bytes wait. Queue and output equal the decoding of every byte received so far, whatever the split into reads. |
| `Acquisition.IsProbe` | bmp_traceswo.cpp:56 | A device is the probe when its vendor is 0x1d50 and its product is 0x6018; both must match. |
| `Acquisition.FirstMatch` | bmp_traceswo.cpp:44-61 | The scan over the listing. A selected index names a listed device that is the probe. The scan gives up only when a descriptor query failed. The three `FirstMatch*` lemmas characterise each outcome in both directions. |
| `Acquisition.FirstMatchFound` | bmp_traceswo.cpp:44-61 | The search selects device `i` if and only if device `i` has vendor 0x1d50 and product 0x6018 and every earlier device was read and is not the probe. |
| `Acquisition.FirstMatchNotFound` | bmp_traceswo.cpp:44-65 | The search finds nothing if and only if every descriptor was read and none matches. |
| `Acquisition.FirstMatchFailed` | bmp_traceswo.cpp:44-51 | The search stops on a descriptor failure if and only if some query failed and every device before it was read and is not the probe. |
| `Acquisition.FindProbe` | bmp_traceswo.cpp:42-65 | The scan loop returns the lowest matching index, with every earlier device read and skipped. It returns "not found" only when no device matches. In every case it agrees with `FirstMatch`. |
| `Session.Route` | bmp_traceswo.cpp:73-98 | For open and claim: success goes on, "no such device" goes back to searching, and any other error exits with status 1. Each outcome has exactly one cause. |
| `Session.Step` | bmp_traceswo.cpp:27-142 | One transition. Initialisation goes on to the search on success and exits otherwise. The device `FirstMatch` selects is the one opened, and a device is opened only when `FirstMatch` selected it. Open and claim outcomes follow `Route`: success goes on to the claim or the read loop, a vanished device goes back to the search, any other error exits. If no probe is listed, the program sleeps and searches again instead of opening. A failed listing or descriptor query exits. The read loop is reached only from itself or by a successful claim. In the read loop only a vanished device leads out; any other read error leaves the state unchanged. After the sleep the search starts again. Every exit has status 1. Only received data changes the queue or the output, and printed bytes are never taken back. After a read, at most two bytes wait. |
| `Session.Run` | bmp_traceswo.cpp:33-143 | The outer loop over a sequence of answers. Printed bytes are never taken back. A run that ends the program ends it with status 1. |
| `Session.RunCons` | bmp_traceswo.cpp:33-143 | Handling one answer and then the rest is handling the whole sequence. The bytes received are those of the first answer followed by the rest. |
| `Session.StepContinuesDecoding` | bmp_traceswo.cpp:101-137 | One transition keeps queue and output equal to the decoding of everything received so far plus the bytes this answer delivers. Failed and lost reads deliver none. |
| `Session.RunContinuesDecoding` | bmp_traceswo.cpp:24-142 | Over any run, queue and output follow the decoding of the stream extended by every byte received in the run. |
| `Session.OutputIsDecodedStream` | bmp_traceswo.cpp:16-142 | From program start, the output is the decoding of all bytes ever received, across losses and reconnections. At most two bytes wait. |
| `Session.ReceivedIsFlattened` | bmp_traceswo.cpp:101-137 | The bytes received in a run are the chunks its reads deliver, one per answer, joined in order (`Frames.Flatten` of `Reads`). |
| `Session.OutputIsFedReads` | bmp_traceswo.cpp:16-142 | From program start, queue and output are those of `Frames.FeedAll` fed the run's reads one by one from an empty queue, which ties the session to `Frames.ChunkingInvariance`. |
| `Session.ConnectedOnlyAfterClaim` | bmp_traceswo.cpp:67-101 | A run ends in the read loop only if it started there or a claim in it succeeded. Failed opens and claims never reach the read loop. |
| `Session.RunConcat` | bmp_traceswo.cpp:33-143 | Handling two sequences of answers one after the other is the same as handling their concatenation. |
| `Session.ExitIsFinal` | bmp_traceswo.cpp:28-98 | After `exit` the program awaits no answer and its state no longer changes. |
| `Scenarios.WindowExamples` | bmp_traceswo.cpp:126-136 | `02 ff x` and `ff 08 x` print `x`. `ff ff x` prints nothing and leaves `x` waiting. `ff ff 02 08 x` prints `x`. |
| `Scenarios.FirstOfTwoProbes` | bmp_traceswo.cpp:44-61 | With two probes listed, the first one listed is chosen. |
| `Scenarios.NoProbeRetries` | bmp_traceswo.cpp:33-65 | With only another device listed, the program sleeps and searches again. It never opens a device. |
| `Scenarios.ProbeListedSecond` | bmp_traceswo.cpp:44-61 | With the probe listed after another device, index 1 is selected. |
| `Scenarios.TwoFrames` | bmp_traceswo.cpp:125-137 | The bytes `02 08 41 02 08 42` print `AB` and leave nothing queued. |
| `Scenarios.ProbeConnectsAndPrints` | bmp_traceswo.cpp:44-137 | The search selects the second device, open and claim succeed, and the first read prints `AB`. |
| `Scenarios.ProbeFoundOnSecondSearch` | bmp_traceswo.cpp:33-137 | No probe, sleep, probe found, open and claim succeed, and the read `02 08 41 02 08 42` prints `AB`. |
| `Scenarios.LossKeepsHalfFrame` | bmp_traceswo.cpp:105-137 | `02 08` is read, then a read error, then the device is lost. The two bytes stay queued and nothing is printed. |
| `Scenarios.ReconnectCompletesFrame` | bmp_traceswo.cpp:33-142 | From the lost state with `02 08` queued, the program searches, opens and claims the probe again. The read `41` prints `A`. |
| `Scenarios.PartialFrameSurvivesReconnection` | bmp_traceswo.cpp:24-142 | `02 08` is read, then a read error, then the device is lost. After reconnecting, the read `41` prints `A`. |
| `Scenarios.OpenErrorExits` | bmp_traceswo.cpp:70-83 | An open error other than "no such device" exits with status 1 before any read. |
| `Program.TraceSwo.constructor` | bmp_traceswo.cpp:16-31 | The program starts before initialisation with an empty queue and a 128-byte buffer. |
| `Program.TraceSwo.Handle` | bmp_traceswo.cpp:33-142 | Handling one answer moves the object to the state `Step` gives. The decoder has then seen every byte delivered so far. |
| `Program.TraceSwo.Serve` | bmp_traceswo.cpp:33-143 | Handling a sequence of answers in the loop leaves the object in the state `Run` gives, with every received byte fed to the decoder. |

## Left out

- The USB library (`libusb_init`, `libusb_get_device_list`, `libusb_get_device_descriptor`, `libusb_open`, `libusb_claim_interface`, `libusb_bulk_transfer`) is foreign code. Its results are inputs to the model (`Reply`), and each negative result is classified as "no such device" or "other error" (`Status`). libusb.h is not part of this model, so the numeric error codes are not either.
- The interface number 5 and the endpoint `0x85` are only arguments of foreign calls; they appear as constants in `Config` and nothing depends on them.
- The loop never ends on its own. The model covers every finite prefix of the transport's answers (`Session.Run`, `Program.TraceSwo.Serve`), not infinite runs.
- `sleep(1)` becomes the `Woke` answer that takes `Lost` back to `Searching`; time itself is not modelled.
- `exit(1)` becomes the terminal phase `Exited(1)`; process termination itself is not modelled.
- Diagnostic output (`printf`/`fprintf`, including the bus and address of each device and the "invalid glob" message) is not modelled. `putchar` is modelled as appending to `output`.
- Freeing the device list, including the list that is never freed on the not-found path, is not modelled.
- The program never calls `libusb_close` or `libusb_release_interface`: every lost connection leaves its handle open and interface 5 claimed (lines 69-110). Handles and claims are not modelled, so neither is this leak.
- The read has no timeout (timeout 0), so it blocks; blocking and scheduling are not modelled.
