/** The reader's persistent byte queue and the loop that drains it, as a
    class whose fields the operations update in place. */
module Decoder {
  import opened Frames

  /** `queue` is the queue of received bytes not yet consumed; `output` is
      every payload byte written with `putchar` so far. The ghost `stream` is every byte received,
      and `Valid` says that queue and output are exactly what decoding that
      whole stream leaves and prints. */
  class FrameDecoder {
    var queue: seq<byte>
    var output: seq<byte>
    ghost var stream: seq<byte>

    ghost predicate Valid()
      reads this
    {
      queue == Decode(stream).rest && output == Decode(stream).out
    }

    /** An empty queue, created once before the first device search. */
    constructor ()
      ensures Valid()
      ensures stream == [] && queue == [] && output == []
    {
      queue, output, stream := [], [], [];
    }

    /** Appends one byte at the tail of the queue. */
    method Push(b: byte)
      modifies this`queue
      ensures queue == old(queue) + [b]
    {
      queue := queue + [b];
    }

    /** Removes and returns the front of the queue. */
    method Pop() returns (b: byte)
      requires |queue| > 0
      modifies this`queue
      ensures b == old(queue)[0] && queue == old(queue)[1..]
    {
      b := queue[0];
      queue := queue[1..];
    }

    /** One pass of the drain loop: pops the two header bytes; a rejected
        window stops there, so its third byte becomes the new front; an
        accepted one pops its third byte too and prints it. */
    method PopWindow()
      requires |queue| >= 3
      modifies this`queue, this`output
      ensures Rejected(old(queue)[0], old(queue)[1]) ==>
                queue == old(queue)[2..] && output == old(output)
      ensures !Rejected(old(queue)[0], old(queue)[1]) ==>
                queue == old(queue)[3..] && output == old(output) + [old(queue)[2]]
    {
      var header1 := Pop();
      var header2 := Pop();
      if Rejected(header1, header2) {
        return;
      }
      var outChar := Pop();
      output := output + [outChar];
    }

    /** Decodes windows while at least three bytes are queued. */
    method Drain()
      modifies this`queue, this`output
      ensures queue == Decode(old(queue)).rest
      ensures output == old(output) + Decode(old(queue)).out
    {
      while |queue| >= 3
        invariant old(output) + Decode(old(queue)).out == output + Decode(queue).out
        invariant Decode(queue).rest == Decode(old(queue)).rest
        decreases |queue|
      {
        ghost var q := queue;
        PopWindow();
        assert !Rejected(q[0], q[1]) ==> Decode(q).out == [q[2]] + Decode(queue).out;
      }
    }

    /** Handles one successful bulk read of `count` bytes into `dataUp`:
        pushes them in order, then drains the queue. Afterwards at most two
        bytes wait, and queue and output are those of decoding every byte
        received so far, however the bytes were split into reads. */
    method Receive(dataUp: array<byte>, count: int)
      requires Valid()
      requires 0 <= count <= dataUp.Length
      modifies this
      ensures Valid()
      ensures stream == old(stream) + dataUp[..count]
      ensures |queue| <= 2
      ensures queue == Decode(old(queue) + dataUp[..count]).rest
      ensures output == old(output) + Decode(old(queue) + dataUp[..count]).out
    {
      for i := 0 to count
        invariant queue == old(queue) + dataUp[..i]
        invariant output == old(output) && stream == old(stream)
      {
        Push(dataUp[i]);
        assert dataUp[..i + 1] == dataUp[..i] + [dataUp[i]];
      }
      Drain();
      DecodeAppend(stream, dataUp[..count]);
      stream := stream + dataUp[..count];
    }
  }
}
