/** The trace reader's `main` as an object: the control position, the
    persistent decoder and the fixed read buffer, driven by the answers of
    the USB transport. */
module Program {
  import opened Config
  import opened Frames
  import opened Acquisition
  import opened Session
  import opened Decoder

  class TraceSwo {
    var phase: Phase
    /** The byte queue and the printed output; created once, never replaced. */
    const decoder: FrameDecoder
    /** The 128-byte buffer each bulk read fills. */
    const dataUp: array<byte>

    ghost predicate Valid()
      reads this, decoder
    {
      decoder.Valid() && dataUp.Length == TransferSize
    }

    /** The abstract state the object stands for. */
    ghost function State(): Machine
      reads this, decoder
    {
      Machine(phase, decoder.queue, decoder.output)
    }

    /** Program start: before `libusb_init`, with an empty queue. */
    constructor ()
      ensures Valid() && State() == Start()
      ensures fresh(decoder) && fresh(dataUp) && decoder.stream == []
    {
      phase := Initializing;
      decoder := new FrameDecoder();
      dataUp := new byte[TransferSize];
    }

    /** Handles the answer to the call the current phase makes, exactly as
        `Step` says; the decoder has then seen every byte delivered so far. */
    method Handle(reply: Reply)
      requires Valid() && Expects(phase, reply)
      modifies this, decoder, dataUp
      ensures Valid() && State() == Step(old(State()), reply)
      ensures decoder.stream == old(decoder.stream) + Delivered(reply)
    {
      match phase
      case Initializing =>
        if reply.status != Success {
          phase := Exited(ExitFailure);
        } else {
          phase := Searching;
        }
      case Searching =>
        match reply.listing {
          case ListFailed =>
            phase := Exited(ExitFailure);
          case Listed(devs) =>
            var scan := FindProbe(devs);
            match scan {
              case Found(i) => phase := Opening(i);
              case NotFound => phase := Lost;
              case DescriptorFailed => phase := Exited(ExitFailure);
            }
        }
      case Opening(_) =>
        if reply.status == NoDevice {
          phase := Lost;
        } else if reply.status == OtherError {
          phase := Exited(ExitFailure);
        } else {
          phase := Claiming;
        }
      case Claiming =>
        if reply.status == NoDevice {
          phase := Lost;
        } else if reply.status == OtherError {
          phase := Exited(ExitFailure);
        } else {
          phase := Connected;
        }
      case Connected =>
        match reply.read {
          case Received(data) =>
            // the transport fills the front of the buffer with the bytes read
            for k := 0 to |data|
              invariant dataUp[..k] == data[..k]
              modifies dataUp
            {
              dataUp[k] := data[k];
            }
            assert dataUp[..|data|] == data;
            decoder.Receive(dataUp, |data|);
          case Gone =>
            phase := Lost;
          case Failed =>
        }
      case Lost =>
        phase := Searching;
    }

    /** The program's outer loop over a finite prefix of the transport's
        answers: afterwards the object is in the state the model reaches. */
    method Serve(replies: seq<Reply>)
      requires Valid() && Admissible(State(), replies)
      modifies this, decoder, dataUp
      ensures Valid() && State() == Session.Run(old(State()), replies)
      ensures decoder.stream == old(decoder.stream) + ReceivedBytes(replies)
    {
      var i := 0;
      while i < |replies|
        invariant 0 <= i <= |replies| && Valid()
        invariant Admissible(State(), replies[i..])
        invariant Session.Run(old(State()), replies) == Session.Run(State(), replies[i..])
        invariant old(decoder.stream) + ReceivedBytes(replies) == decoder.stream + ReceivedBytes(replies[i..])
      {
        assert replies[i..] == [replies[i]] + replies[i + 1..];
        RunCons(State(), replies[i], replies[i + 1..]);
        ghost var before := decoder.stream;
        Handle(replies[i]);
        ConcatAssoc(before, Delivered(replies[i]), ReceivedBytes(replies[i + 1..]));
        i := i + 1;
      }
    }
  }
}
