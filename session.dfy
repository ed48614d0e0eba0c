/** The top-level control flow of the trace reader as a state machine over
    the answers the USB transport gives. Each phase waits for one kind of
    answer; `Step` is what the program does with it. */
module Session {
  import opened Config
  import opened Frames
  import opened Acquisition

  /** How a transport call ended: a non-negative result, the "no such
      device" error, or any other negative result. */
  datatype Status = Success | NoDevice | OtherError

  /** Result of listing the attached devices, with the descriptor query
      result of each listed device, in listing order. */
  datatype Listing = ListFailed | Listed(devices: seq<Query>)

  /** Result of one bulk read from the upstream endpoint. */
  datatype Transfer = Received(data: seq<byte>) | Gone | Failed

  /** One answer from the environment: the result of the transport call the
      current phase makes, or the end of the one-second sleep. */
  datatype Reply =
    | InitDone(status: Status)
    | Enumerated(listing: Listing)
    | Opened(status: Status)
    | Claimed(status: Status)
    | Transferred(read: Transfer)
    | Woke

  /** Where control is: before `libusb_init`, at the top of the search loop,
      opening the chosen device, claiming its trace interface, in the read
      loop, at the `lost_device` label, or terminated by `exit`. */
  datatype Phase =
    | Initializing
    | Searching
    | Opening(deviceIdx: nat)
    | Claiming
    | Connected
    | Lost
    | Exited(status: int)

  /** The whole observable state: the phase, the persistent byte queue and
      every payload byte written with `putchar` so far. */
  datatype Machine = Machine(phase: Phase, queue: seq<byte>, output: seq<byte>)

  /** The state when the program starts. */
  function Start(): Machine {
    Machine(Initializing, [], [])
  }

  /** The answer `reply` is one the phase `p` can receive. A bulk read never
      delivers more than the buffer holds. Nothing follows `exit`. */
  predicate Expects(p: Phase, reply: Reply) {
    match p
    case Initializing => reply.InitDone?
    case Searching => reply.Enumerated?
    case Opening(_) => reply.Opened?
    case Claiming => reply.Claimed?
    case Connected => reply.Transferred? && (reply.read.Received? ==> |reply.read.data| <= TransferSize)
    case Lost => reply.Woke?
    case Exited(_) => false
  }

  /** Error routing shared by open and claim: go on to `next` on success,
      back to the search when the device has gone, exit otherwise. */
  function Route(status: Status, next: Phase): (p: Phase)
    ensures p == next <==> status == Success
    ensures p == Lost <==> status == NoDevice
    ensures p == Exited(ExitFailure) <==> status == OtherError
    requires next != Lost && !next.Exited?
  {
    match status
    case Success => next
    case NoDevice => Lost
    case OtherError => Exited(ExitFailure)
  }

  /** One transition of the program on the answer to the call it made. */
  function Step(m: Machine, reply: Reply): (r: Machine)
    requires Expects(m.phase, reply)
    // the read loop is only entered by a successful claim
    ensures r.phase == Connected ==> m.phase == Connected || (m.phase == Claiming && reply == Claimed(Success))
    // every exit is with status 1
    ensures r.phase.Exited? ==> r.phase.status == ExitFailure
    // only received data touches the queue and the output; nothing ever clears the queue
    ensures !(reply.Transferred? && reply.read.Received?) ==> r.queue == m.queue && r.output == m.output
    // after received data is handled, at most two bytes wait
    ensures reply.Transferred? && reply.read.Received? ==> |r.queue| <= 2
    // printed bytes are never taken back
    ensures m.output <= r.output
    // initialisation: go on to the search on success, exit otherwise
    ensures m.phase == Initializing ==> (r.phase == Searching <==> reply.status == Success)
    // a device is opened only when the search selected it
    ensures r.phase.Opening? ==>
              m.phase == Searching && reply.listing.Listed? &&
              FirstMatch(reply.listing.devices) == Found(r.phase.deviceIdx)
    // no probe in the listing: sleep and search again, never open
    ensures m.phase == Searching && reply.listing.Listed? && FirstMatch(reply.listing.devices) == NotFound ==>
              r.phase == Lost
    // a failed listing or descriptor query ends the program
    ensures m.phase == Searching ==>
              (r.phase.Exited? <==> reply.listing.ListFailed? || FirstMatch(reply.listing.devices) == DescriptorFailed)
    // in the read loop only a vanished device leaves it; any other read error changes nothing
    ensures m.phase == Connected ==> (r.phase == Lost <==> reply.read.Gone?) && (r.phase == Connected <==> !reply.read.Gone?)
    ensures m.phase == Connected && reply.read.Failed? ==> r == m
    // after the sleep the search starts again
    ensures m.phase == Lost ==> r.phase == Searching
    // a failed initialisation ends the program
    ensures m.phase == Initializing && reply.status != Success ==> r.phase == Exited(ExitFailure)
    // the device the search selects is the one opened
    ensures m.phase == Searching && reply.listing.Listed? && FirstMatch(reply.listing.devices).Found? ==>
              r.phase == Opening(FirstMatch(reply.listing.devices).index)
    // open and claim outcomes are routed alike: on, back to the search, or exit
    ensures m.phase.Opening? ==> r.phase == Route(reply.status, Claiming)
    ensures m.phase == Claiming ==> r.phase == Route(reply.status, Connected)
  {
    match m.phase
    case Initializing =>
      m.(phase := if reply.status == Success then Searching else Exited(ExitFailure))
    case Searching =>
      (match reply.listing
       case ListFailed => m.(phase := Exited(ExitFailure))
       case Listed(devs) =>
         match FirstMatch(devs)
         case Found(i) => m.(phase := Opening(i))
         case NotFound => m.(phase := Lost)
         case DescriptorFailed => m.(phase := Exited(ExitFailure)))
    case Opening(_) => m.(phase := Route(reply.status, Claiming))
    case Claiming => m.(phase := Route(reply.status, Connected))
    case Connected =>
      (match reply.read
       case Received(data) =>
         var d := Decode(m.queue + data);
         Machine(Connected, d.rest, m.output + d.out)
       case Gone => m.(phase := Lost)
       case Failed => m)
    case Lost => m.(phase := Searching)
  }

  /** Every answer of `replies`, in turn, is one the program is waiting for. */
  predicate Admissible(m: Machine, replies: seq<Reply>)
    decreases |replies|
  {
    replies == [] ||
    (Expects(m.phase, replies[0]) && Admissible(Step(m, replies[0]), replies[1..]))
  }

  /** The state after the program has handled `replies` in order. */
  function Run(m: Machine, replies: seq<Reply>): (r: Machine)
    requires Admissible(m, replies)
    // printed bytes are never taken back
    ensures m.output <= r.output
    // a run that ends the program ends it with status 1
    ensures r.phase.Exited? ==> r.phase.status == ExitFailure || r == m
    decreases |replies|
  {
    if replies == [] then m else Run(Step(m, replies[0]), replies[1..])
  }

  /** Handling `a` and then `b` is handling `a + b`. */
  lemma {:induction false} RunConcat(m: Machine, a: seq<Reply>, b: seq<Reply>)
    requires Admissible(m, a) && Admissible(Run(m, a), b)
    ensures Admissible(m, a + b) && Run(m, a + b) == Run(Run(m, a), b)
    decreases |a|
  {
    if a == [] {
      assert a + b == b;
    } else {
      RunConcat(Step(m, a[0]), a[1..], b);
      assert (a + b)[0] == a[0] && (a + b)[1..] == a[1..] + b;
    }
  }

  /** Handling `r` and then `rs` is handling `[r] + rs`; the bytes received
      are those `r` delivers followed by those of `rs`. */
  lemma RunCons(m: Machine, r: Reply, rs: seq<Reply>)
    requires Expects(m.phase, r)
    ensures Admissible(m, [r] + rs) <==> Admissible(Step(m, r), rs)
    ensures Admissible(m, [r] + rs) ==> Run(m, [r] + rs) == Run(Step(m, r), rs)
    ensures ReceivedBytes([r] + rs) == Delivered(r) + ReceivedBytes(rs)
  {
    assert ([r] + rs)[0] == r && ([r] + rs)[1..] == rs;
  }

  /** The bytes an answer delivers: those of a successful read, else none. */
  function Delivered(reply: Reply): seq<byte> {
    if reply.Transferred? && reply.read.Received? then reply.read.data else []
  }

  /** Every byte delivered by the successful reads among `replies`, in order. */
  function ReceivedBytes(replies: seq<Reply>): seq<byte>
    decreases |replies|
  {
    if replies == [] then [] else Delivered(replies[0]) + ReceivedBytes(replies[1..])
  }

  /** The chunks the answers deliver, one per answer, in order. */
  function Reads(replies: seq<Reply>): (r: seq<seq<byte>>)
    ensures |r| == |replies|
    decreases |replies|
  {
    if replies == [] then [] else [Delivered(replies[0])] + Reads(replies[1..])
  }

  /** The bytes received are the chunks the answers deliver, joined. */
  lemma {:induction false} ReceivedIsFlattened(replies: seq<Reply>)
    ensures ReceivedBytes(replies) == Flatten(Reads(replies))
    decreases |replies|
  {
    if replies != [] {
      ReceivedIsFlattened(replies[1..]);
      var rs := Reads(replies);
      assert rs[0] == Delivered(replies[0]) && rs[1..] == Reads(replies[1..]);
    }
  }

  /** One transition keeps queue and output equal to the decoding of the
      stream received so far, extended by what the answer delivers. */
  lemma StepContinuesDecoding(m: Machine, s: seq<byte>, reply: Reply)
    requires Expects(m.phase, reply)
    requires m.queue == Decode(s).rest && m.output == Decode(s).out
    ensures Step(m, reply).queue == Decode(s + Delivered(reply)).rest
    ensures Step(m, reply).output == Decode(s + Delivered(reply)).out
  {
    DecodeAppend(s, Delivered(reply));
    if Delivered(reply) == [] {
      assert s + Delivered(reply) == s;
    }
  }

  /** The queue persists across reads and reconnections: after any run, queue
      and output are those of decoding the stream so far extended by every
      byte received during the run. */
  lemma {:induction false} RunContinuesDecoding(m: Machine, s: seq<byte>, replies: seq<Reply>)
    requires Admissible(m, replies)
    requires m.queue == Decode(s).rest && m.output == Decode(s).out
    ensures Run(m, replies).queue == Decode(s + ReceivedBytes(replies)).rest
    ensures Run(m, replies).output == Decode(s + ReceivedBytes(replies)).out
    decreases |replies|
  {
    if replies == [] {
      assert s + ReceivedBytes(replies) == s;
    } else {
      var r0, rs := replies[0], replies[1..];
      var chunk := Delivered(r0);
      StepContinuesDecoding(m, s, r0);
      RunContinuesDecoding(Step(m, r0), s + chunk, rs);
      ConcatAssoc(s, chunk, ReceivedBytes(rs));
    }
  }

  /** From program start, the output is the decoding of all bytes ever
      received, across every loss and reconnection of the device. */
  lemma OutputIsDecodedStream(replies: seq<Reply>)
    requires Admissible(Start(), replies)
    ensures Run(Start(), replies).output == Decode(ReceivedBytes(replies)).out
    ensures Run(Start(), replies).queue == Decode(ReceivedBytes(replies)).rest
    ensures |Run(Start(), replies).queue| <= 2
  {
    RunContinuesDecoding(Start(), [], replies);
    assert [] + ReceivedBytes(replies) == ReceivedBytes(replies);
  }

  /** From program start, the program handles the reads one by one exactly as
      feeding their chunks to an empty queue does. */
  lemma OutputIsFedReads(replies: seq<Reply>)
    requires Admissible(Start(), replies)
    ensures Run(Start(), replies).output == FeedAll([], Reads(replies)).out
    ensures Run(Start(), replies).queue == FeedAll([], Reads(replies)).rest
  {
    OutputIsDecodedStream(replies);
    ReceivedIsFlattened(replies);
    ChunkingInvariance(Reads(replies));
  }

  /** A run ends in the read loop only if it started there or some claim in
      it succeeded. */
  lemma {:induction false} ConnectedOnlyAfterClaim(m: Machine, replies: seq<Reply>)
    requires Admissible(m, replies)
    ensures Run(m, replies).phase == Connected ==> m.phase == Connected || Claimed(Success) in replies
    decreases |replies|
  {
    if replies != [] {
      ConnectedOnlyAfterClaim(Step(m, replies[0]), replies[1..]);
      assert replies == [replies[0]] + replies[1..];
    }
  }

  /** Once the program has exited, no answer is awaited any more. */
  lemma ExitIsFinal(m: Machine, replies: seq<Reply>)
    requires m.phase.Exited? && Admissible(m, replies)
    ensures replies == [] && Run(m, replies) == m
  {
  }
}
