/** The framing protocol of the trace stream, as pure functions.

    The stream is cut into windows. A window starts with two header bytes;
    it is rejected only when NEITHER header byte has its marker value, in
    which case just those two bytes are dropped and the byte after them
    starts the next window. Otherwise a third byte follows and is the
    payload that gets printed. Fewer than three bytes wait for more input. */
module Frames {
  type byte = bv8

  /** Marker value of the first header byte. */
  const MarkerFirst: byte := 0x02
  /** Marker value of the second header byte. */
  const MarkerSecond: byte := 0x08

  /** The window test of the trace reader: a window is refused only when both
      header bytes differ from their marker values, so one matching byte is
      enough to accept it. */
  predicate Rejected(header1: byte, header2: byte) {
    header1 != MarkerFirst && header2 != MarkerSecond
  }

  /** What decoding a queue of bytes produces: the payload bytes printed, in
      order, and the bytes left waiting in the queue. */
  datatype Decoded = Decoded(out: seq<byte>, rest: seq<byte>)

  /** Decodes the byte queue `q` window by window, as long as at least three
      bytes are queued. */
  function Decode(q: seq<byte>): (r: Decoded)
    // at most two bytes are left over
    ensures |r.rest| <= 2
    // a queue shorter than a window is left as it is
    ensures |q| < 3 ==> r.rest == q && r.out == []
    // at least three bytes are consumed for every byte printed
    ensures 3 * |r.out| <= |q| - |r.rest|
    decreases |q|
  {
    if |q| < 3 then Decoded([], q)
    else if Rejected(q[0], q[1]) then
      Decode(q[2..])
    else
      var t := Decode(q[3..]);
      Decoded([q[2]] + t.out, t.rest)
  }

  /** The bytes left waiting are the last bytes of the queue, in order: the
      decoder never reorders or alters a byte it has not consumed. */
  lemma {:induction false} LeftoverIsTail(q: seq<byte>)
    ensures |Decode(q).rest| <= |q| && Decode(q).rest == q[|q| - |Decode(q).rest|..]
    decreases |q|
  {
    if |q| >= 3 {
      var t := if Rejected(q[0], q[1]) then q[2..] else q[3..];
      LeftoverIsTail(t);
      var n := |Decode(q).rest|;
      assert q[|q| - |t|..] == t;
      assert t[|t| - n..] == q[|q| - n..];
    }
  }

  /** Decoding is incremental: decoding `s + c` prints what decoding `s`
      prints, followed by what decoding the leftover of `s` followed by `c`
      prints, and leaves the same bytes waiting. This is what lets the
      reader keep only the leftover queue between two reads. */
  lemma {:induction false} DecodeAppend(s: seq<byte>, c: seq<byte>)
    ensures Decode(s + c).out == Decode(s).out + Decode(Decode(s).rest + c).out
    ensures Decode(s + c).rest == Decode(Decode(s).rest + c).rest
    decreases |s|
  {
    if |s| < 3 {
      assert Decode(s).out == [] && Decode(s).rest == s;
    } else {
      var sc := s + c;
      assert sc[0] == s[0] && sc[1] == s[1] && sc[2] == s[2];
      if Rejected(s[0], s[1]) {
        assert sc[2..] == s[2..] + c;
        DecodeAppend(s[2..], c);
      } else {
        assert sc[3..] == s[3..] + c;
        DecodeAppend(s[3..], c);
        var t := Decode(s[3..]);
        assert Decode(sc).out == [s[2]] + (t.out + Decode(t.rest + c).out);
      }
    }
  }

  /** Concatenation is associative; kept apart so that proofs over `Decode`
      do not have to find it among their other facts. */
  lemma ConcatAssoc<T>(a: seq<T>, b: seq<T>, c: seq<T>)
    ensures a + b + c == a + (b + c)
  {
  }

  /** All bytes of a list of chunks, one after the other. */
  function Flatten(chunks: seq<seq<byte>>): seq<byte> {
    if chunks == [] then [] else chunks[0] + Flatten(chunks[1..])
  }

  /** The reader's handling of a list of reads: each chunk is appended to
      the waiting bytes and the result decoded; what is printed accumulates
      and the leftover is carried to the next chunk. */
  function FeedAll(pending: seq<byte>, chunks: seq<seq<byte>>): (r: Decoded)
    // once a chunk has been handled, at most two bytes wait
    ensures chunks != [] ==> |r.rest| <= 2
    // at least three bytes are consumed for every byte printed
    ensures 3 * |r.out| + |r.rest| <= |pending| + |Flatten(chunks)|
    decreases |chunks|
  {
    if chunks == [] then Decoded([], pending)
    else
      var d := Decode(pending + chunks[0]);
      var t := FeedAll(d.rest, chunks[1..]);
      Decoded(d.out + t.out, t.rest)
  }

  /** Feeding chunks after a stream `s` has been decoded continues the
      decoding of `s` as if the chunks had been part of it. */
  lemma {:induction false} FeedAllContinues(s: seq<byte>, chunks: seq<seq<byte>>)
    ensures Decode(s).out + FeedAll(Decode(s).rest, chunks).out == Decode(s + Flatten(chunks)).out
    ensures FeedAll(Decode(s).rest, chunks).rest == Decode(s + Flatten(chunks)).rest
    decreases |chunks|
  {
    if chunks == [] {
      assert s + Flatten(chunks) == s;
    } else {
      var c, cs := chunks[0], chunks[1..];
      var d := Decode(Decode(s).rest + c);
      var t := FeedAll(d.rest, cs);
      assert FeedAll(Decode(s).rest, chunks) == Decoded(d.out + t.out, t.rest);
      assert Flatten(chunks) == c + Flatten(cs);
      DecodeAppend(s, c);
      FeedAllContinues(s + c, cs);
      ConcatAssoc(s, c, Flatten(cs));
      ConcatAssoc(Decode(s).out, d.out, t.out);
    }
  }

  /** Chunking invariance: whatever way the stream is split into reads, the
      bytes printed and the bytes left waiting are those of decoding the
      whole stream at once. */
  lemma ChunkingInvariance(chunks: seq<seq<byte>>)
    ensures FeedAll([], chunks) == Decode(Flatten(chunks))
  {
    FeedAllContinues([], chunks);
    assert [] + Flatten(chunks) == Flatten(chunks);
  }

  /** The byte stream carrying the payload bytes `ps`, each in a frame of
      its own: both marker bytes, then the payload byte. */
  function Framed(ps: seq<byte>): (r: seq<byte>)
    ensures |r| == 3 * |ps|
    decreases |ps|
  {
    if ps == [] then [] else [MarkerFirst, MarkerSecond, ps[0]] + Framed(ps[1..])
  }

  /** Well-formed frames decode to their payload bytes, in order, and leave
      nothing waiting. */
  lemma {:induction false} FramedDecodes(ps: seq<byte>)
    ensures Decode(Framed(ps)) == Decoded(ps, [])
    decreases |ps|
  {
    if ps != [] {
      FramedDecodes(ps[1..]);
      assert Framed(ps)[3..] == Framed(ps[1..]);
      assert [ps[0]] + ps[1..] == ps;
    }
  }

  /** However a stream of well-formed frames is split into reads, feeding
      the reads from an empty queue prints exactly the payload bytes. */
  lemma FramedAnySplit(ps: seq<byte>, chunks: seq<seq<byte>>)
    requires Flatten(chunks) == Framed(ps)
    ensures FeedAll([], chunks) == Decoded(ps, [])
  {
    ChunkingInvariance(chunks);
    FramedDecodes(ps);
  }

  /** The offsets in `q` of the accepted windows the decoder parses when it
      starts a window at offset `p`: a refused window moves the next start on
      by two bytes, an accepted one by three, and the parse stops when fewer
      than three bytes remain. */
  function AcceptedFrom(q: seq<byte>, p: nat): seq<nat>
    decreases |q| - p
  {
    if p + 3 > |q| then []
    else if Rejected(q[p], q[p + 1]) then AcceptedFrom(q, p + 2)
    else [p] + AcceptedFrom(q, p + 3)
  }

  /** The accepted windows of a parse from offset `p` lie at or after `p`,
      within `q`, pass the window test, and come in increasing,
      non-overlapping order. */
  lemma {:induction false} AcceptedWindowsInOrder(q: seq<byte>, p: nat)
    ensures forall k :: 0 <= k < |AcceptedFrom(q, p)| ==>
              p <= AcceptedFrom(q, p)[k] && AcceptedFrom(q, p)[k] + 3 <= |q| &&
              !Rejected(q[AcceptedFrom(q, p)[k]], q[AcceptedFrom(q, p)[k] + 1])
    ensures forall j, k :: 0 <= j < k < |AcceptedFrom(q, p)| ==> AcceptedFrom(q, p)[j] + 3 <= AcceptedFrom(q, p)[k]
    decreases |q| - p
  {
    if p + 3 <= |q| {
      var acc := AcceptedFrom(q, p);
      if Rejected(q[p], q[p + 1]) {
        AcceptedWindowsInOrder(q, p + 2);
        assert acc == AcceptedFrom(q, p + 2);
      } else {
        var tail := AcceptedFrom(q, p + 3);
        AcceptedWindowsInOrder(q, p + 3);
        assert acc == [p] + tail;
        forall k | 0 < k < |acc|
          ensures acc[k] == tail[k - 1] && p + 3 <= acc[k] && acc[k] + 3 <= |q|
          ensures !Rejected(q[acc[k]], q[acc[k] + 1])
        {
        }
        forall j, k | 0 < j < k < |acc| ensures acc[j] + 3 <= acc[k] {
          assert acc[j] == tail[j - 1] && acc[k] == tail[k - 1];
        }
      }
    }
  }

  /** The printed bytes correspond one to one, in order, to the accepted
      windows of the parse from offset `p`: there are as many accepted
      windows as printed bytes, each lies in the consumed part of the queue,
      and its third byte is the byte printed. */
  lemma {:induction false} OutputFollowsParse(q: seq<byte>, p: nat)
    requires p <= |q|
    ensures |AcceptedFrom(q, p)| == |Decode(q[p..]).out|
    ensures forall k :: 0 <= k < |AcceptedFrom(q, p)| ==>
              AcceptedFrom(q, p)[k] + 3 <= |q| - |Decode(q[p..]).rest| &&
              Decode(q[p..]).out[k] == q[AcceptedFrom(q, p)[k] + 2]
    decreases |q| - p, 1
  {
    if p + 3 <= |q| {
      var s := q[p..];
      assert s[0] == q[p] && s[1] == q[p + 1];
      if Rejected(q[p], q[p + 1]) {
        assert s[2..] == q[p + 2..];
        OutputFollowsParse(q, p + 2);
      } else {
        OutputFollowsAccepted(q, p);
      }
    }
  }

  /** The step of `OutputFollowsParse` at an accepted window: its third byte
      is printed first, then what the parse from the next window prints. */
  lemma {:induction false} OutputFollowsAccepted(q: seq<byte>, p: nat)
    requires p + 3 <= |q| && !Rejected(q[p], q[p + 1])
    ensures |AcceptedFrom(q, p)| == |Decode(q[p..]).out|
    ensures forall k :: 0 <= k < |AcceptedFrom(q, p)| ==>
              AcceptedFrom(q, p)[k] + 3 <= |q| - |Decode(q[p..]).rest| &&
              Decode(q[p..]).out[k] == q[AcceptedFrom(q, p)[k] + 2]
    decreases |q| - p, 0
  {
    var s := q[p..];
    assert s[0] == q[p] && s[1] == q[p + 1] && s[2] == q[p + 2];
    assert s[3..] == q[p + 3..];
    DecodeAccepted(s);
    OutputFollowsParse(q, p + 3);
    var t := Decode(q[p + 3..]);
    var tail := AcceptedFrom(q, p + 3);
    assert AcceptedFrom(q, p) == [p] + tail;
    assert |t.rest| <= |q| - (p + 3);
    PrependWindow(q, |t.rest|, p, tail, t.out);
  }

  /** Decoding a queue that starts with an accepted window prints its third
      byte, then goes on three bytes later. */
  lemma DecodeAccepted(s: seq<byte>)
    requires |s| >= 3 && !Rejected(s[0], s[1])
    ensures Decode(s) == Decoded([s[2]] + Decode(s[3..]).out, Decode(s[3..]).rest)
  {
  }

  /** Putting one more window in front: if each of `starts` names a window
      in the consumed part of `q` whose third byte is the matching byte of
      `out`, the same holds with `p` and `q[p + 2]` in front. */
  lemma PrependWindow(q: seq<byte>, restLen: nat, p: nat, starts: seq<nat>, out: seq<byte>)
    requires p + 3 <= |q| - restLen && |starts| == |out|
    requires forall k :: 0 <= k < |starts| ==> starts[k] + 3 <= |q| - restLen && out[k] == q[starts[k] + 2]
    ensures |[p] + starts| == |[q[p + 2]] + out|
    ensures forall k :: 0 <= k < |[p] + starts| ==>
              ([p] + starts)[k] + 3 <= |q| - restLen && ([q[p + 2]] + out)[k] == q[([p] + starts)[k] + 2]
  {
    forall k | 0 < k < |[p] + starts|
      ensures ([p] + starts)[k] + 3 <= |q| - restLen && ([q[p + 2]] + out)[k] == q[([p] + starts)[k] + 2]
    {
      assert ([p] + starts)[k] == starts[k - 1] && ([q[p + 2]] + out)[k] == out[k - 1];
    }
  }

  /** From the front of the queue: the k-th printed byte is the third byte of
      the k-th accepted window the decoder parses, and those windows come in
      increasing, non-overlapping order. */
  lemma OutputFollowsWindows(q: seq<byte>)
    ensures |AcceptedFrom(q, 0)| == |Decode(q).out|
    ensures forall k :: 0 <= k < |AcceptedFrom(q, 0)| ==>
              AcceptedFrom(q, 0)[k] + 3 <= |q| - |Decode(q).rest| &&
              !Rejected(q[AcceptedFrom(q, 0)[k]], q[AcceptedFrom(q, 0)[k] + 1]) &&
              Decode(q).out[k] == q[AcceptedFrom(q, 0)[k] + 2]
    ensures forall j, k :: 0 <= j < k < |AcceptedFrom(q, 0)| ==> AcceptedFrom(q, 0)[j] + 3 <= AcceptedFrom(q, 0)[k]
  {
    OutputFollowsParse(q, 0);
    AcceptedWindowsInOrder(q, 0);
    assert q[0..] == q;
  }
}
