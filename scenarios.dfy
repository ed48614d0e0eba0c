/** Concrete runs of the trace reader, worked out from the model. */
module Scenarios {
  import opened Frames
  import opened Acquisition
  import opened Session

  const Probe: Query := Answered(Descriptor(0x1d50, 0x6018))
  const Other: Query := Answered(Descriptor(0x046d, 0xc52b))

  /** A window is accepted when either marker byte matches, and a window
      with neither marker loses only its two header bytes: its third byte
      starts the next window. */
  lemma WindowExamples(x: byte)
    ensures Decode([0x02, 0xff, x]) == Decoded([x], [])
    ensures Decode([0xff, 0x08, x]) == Decoded([x], [])
    ensures Decode([0xff, 0xff, x]) == Decoded([], [x])
    ensures Decode([0xff, 0xff, 0x02, 0x08, x]) == Decoded([x], [])
  {
  }

  /** With two probes attached, the first one listed is chosen. */
  lemma FirstOfTwoProbes()
    ensures FirstMatch([Other, Probe, Other, Probe]) == Found(1)
  {
  }

  /** No probe is attached: the program sleeps and searches again. */
  lemma NoProbeRetries()
    ensures var replies := [InitDone(Success), Enumerated(Listed([Other])), Woke];
            Admissible(Start(), replies) && Run(Start(), replies) == Machine(Searching, [], [])
  {
    assert FirstMatch([Other]) == NotFound by {
      assert [Other][1..] == [];
    }
    var t3: seq<Reply> := [];
    var t2 := [Woke] + t3;
    RunCons(Machine(Lost, [], []), Woke, t3);
    var t1 := [Enumerated(Listed([Other]))] + t2;
    RunCons(Machine(Searching, [], []), Enumerated(Listed([Other])), t2);
    var t0 := [InitDone(Success)] + t1;
    RunCons(Start(), InitDone(Success), t1);
    assert t0 == [InitDone(Success), Enumerated(Listed([Other])), Woke];
  }

  /** Two frames arriving in one read print `AB` and leave nothing queued. */
  lemma TwoFrames()
    ensures Decode([0x02, 0x08, 0x41, 0x02, 0x08, 0x42]) == Decoded([0x41, 0x42], [])
  {
    var frames: seq<byte> := [0x02, 0x08, 0x41, 0x02, 0x08, 0x42];
    assert frames[3..] == [0x02, 0x08, 0x42];
    assert frames[3..][3..] == [];
  }

  /** With the probe listed after another device, the probe is selected. */
  lemma ProbeListedSecond()
    ensures FirstMatch([Other, Probe]) == Found(1)
  {
    assert [Other, Probe][1..] == [Probe];
  }

  /** The probe is listed second: it is opened and claimed, and the first
      read delivers two frames. */
  lemma ProbeConnectsAndPrints()
    ensures var replies := [Enumerated(Listed([Other, Probe])), Opened(Success), Claimed(Success), Transferred(Received([0x02, 0x08, 0x41, 0x02, 0x08, 0x42]))];
            Admissible(Machine(Searching, [], []), replies) &&
            Run(Machine(Searching, [], []), replies) == Machine(Connected, [], [0x41, 0x42])
  {
    var frames: seq<byte> := [0x02, 0x08, 0x41, 0x02, 0x08, 0x42];
    TwoFrames();
    assert [] + frames == frames;
    ProbeListedSecond();
    var t4: seq<Reply> := [];
    var t3 := [Transferred(Received(frames))] + t4;
    RunCons(Machine(Connected, [], []), Transferred(Received(frames)), t4);
    var t2 := [Claimed(Success)] + t3;
    RunCons(Machine(Claiming, [], []), Claimed(Success), t3);
    var t1 := [Opened(Success)] + t2;
    RunCons(Machine(Opening(1), [], []), Opened(Success), t2);
    var t0 := [Enumerated(Listed([Other, Probe]))] + t1;
    RunCons(Machine(Searching, [], []), Enumerated(Listed([Other, Probe])), t1);
    assert t0 == [Enumerated(Listed([Other, Probe])), Opened(Success), Claimed(Success), Transferred(Received([0x02, 0x08, 0x41, 0x02, 0x08, 0x42]))];
  }

  /** The probe is absent, the program sleeps and searches again, finds it,
      opens and claims it, and the first read delivers two frames, printed
      as `AB`. */
  lemma ProbeFoundOnSecondSearch()
    ensures var replies := [InitDone(Success), Enumerated(Listed([Other])), Woke] + [Enumerated(Listed([Other, Probe])), Opened(Success), Claimed(Success), Transferred(Received([0x02, 0x08, 0x41, 0x02, 0x08, 0x42]))];
            Admissible(Start(), replies) && Run(Start(), replies) == Machine(Connected, [], [0x41, 0x42])
  {
    NoProbeRetries();
    ProbeConnectsAndPrints();
    RunConcat(Start(), [InitDone(Success), Enumerated(Listed([Other])), Woke], [Enumerated(Listed([Other, Probe])), Opened(Success), Claimed(Success), Transferred(Received([0x02, 0x08, 0x41, 0x02, 0x08, 0x42]))]);
  }

  /** The first connection: half a frame arrives, a read fails, then the
      device goes away. The half frame stays queued. */
  lemma LossKeepsHalfFrame()
    ensures var replies := [InitDone(Success), Enumerated(Listed([Probe])), Opened(Success), Claimed(Success), Transferred(Received([0x02, 0x08])), Transferred(Failed), Transferred(Gone)];
            Admissible(Start(), replies) && Run(Start(), replies) == Machine(Lost, [0x02, 0x08], [])
  {
    assert Decode([] + [0x02, 0x08]) == Decoded([], [0x02, 0x08]);
    var t7: seq<Reply> := [];
    var t6 := [Transferred(Gone)] + t7;
    RunCons(Machine(Connected, [0x02, 0x08], []), Transferred(Gone), t7);
    var t5 := [Transferred(Failed)] + t6;
    RunCons(Machine(Connected, [0x02, 0x08], []), Transferred(Failed), t6);
    var t4 := [Transferred(Received([0x02, 0x08]))] + t5;
    RunCons(Machine(Connected, [], []), Transferred(Received([0x02, 0x08])), t5);
    var t3 := [Claimed(Success)] + t4;
    RunCons(Machine(Claiming, [], []), Claimed(Success), t4);
    var t2 := [Opened(Success)] + t3;
    RunCons(Machine(Opening(0), [], []), Opened(Success), t3);
    var t1 := [Enumerated(Listed([Probe]))] + t2;
    RunCons(Machine(Searching, [], []), Enumerated(Listed([Probe])), t2);
    var t0 := [InitDone(Success)] + t1;
    RunCons(Start(), InitDone(Success), t1);
    assert t0 == [InitDone(Success), Enumerated(Listed([Probe])), Opened(Success), Claimed(Success), Transferred(Received([0x02, 0x08])), Transferred(Failed), Transferred(Gone)];
  }

  /** The second connection: the first byte read completes the queued half
      frame. */
  lemma ReconnectCompletesFrame()
    ensures var replies := [Woke, Enumerated(Listed([Probe])), Opened(Success), Claimed(Success), Transferred(Received([0x41]))];
            Admissible(Machine(Lost, [0x02, 0x08], []), replies) &&
            Run(Machine(Lost, [0x02, 0x08], []), replies) == Machine(Connected, [], [0x41])
  {
    assert [0x02, 0x08] + [0x41] == [0x02, 0x08, 0x41];
    assert Decode([0x02, 0x08, 0x41]) == Decoded([0x41], []);
    var t5: seq<Reply> := [];
    var t4 := [Transferred(Received([0x41]))] + t5;
    RunCons(Machine(Connected, [0x02, 0x08], []), Transferred(Received([0x41])), t5);
    var t3 := [Claimed(Success)] + t4;
    RunCons(Machine(Claiming, [0x02, 0x08], []), Claimed(Success), t4);
    var t2 := [Opened(Success)] + t3;
    RunCons(Machine(Opening(0), [0x02, 0x08], []), Opened(Success), t3);
    var t1 := [Enumerated(Listed([Probe]))] + t2;
    RunCons(Machine(Searching, [0x02, 0x08], []), Enumerated(Listed([Probe])), t2);
    var t0 := [Woke] + t1;
    RunCons(Machine(Lost, [0x02, 0x08], []), Woke, t1);
    assert t0 == [Woke, Enumerated(Listed([Probe])), Opened(Success), Claimed(Success), Transferred(Received([0x41]))];
  }

  /** The device goes away after delivering half a frame. The half frame is
      kept in the queue across the reconnection, and the first byte read
      afterwards completes it. */
  lemma PartialFrameSurvivesReconnection()
    ensures var replies := [InitDone(Success), Enumerated(Listed([Probe])), Opened(Success), Claimed(Success), Transferred(Received([0x02, 0x08])), Transferred(Failed), Transferred(Gone)] + [Woke, Enumerated(Listed([Probe])), Opened(Success), Claimed(Success), Transferred(Received([0x41]))];
            Admissible(Start(), replies) && Run(Start(), replies) == Machine(Connected, [], [0x41])
  {
    LossKeepsHalfFrame();
    ReconnectCompletesFrame();
    RunConcat(Start(), [InitDone(Success), Enumerated(Listed([Probe])), Opened(Success), Claimed(Success), Transferred(Received([0x02, 0x08])), Transferred(Failed), Transferred(Gone)], [Woke, Enumerated(Listed([Probe])), Opened(Success), Claimed(Success), Transferred(Received([0x41]))]);
  }

  /** An open that fails for a reason other than a vanished device ends the
      program before any read. */
  lemma OpenErrorExits()
    ensures var replies := [InitDone(Success), Enumerated(Listed([Probe])), Opened(OtherError)];
            Admissible(Start(), replies) && Run(Start(), replies) == Machine(Exited(1), [], [])
  {
    var t3: seq<Reply> := [];
    var t2 := [Opened(OtherError)] + t3;
    RunCons(Machine(Opening(0), [], []), Opened(OtherError), t3);
    var t1 := [Enumerated(Listed([Probe]))] + t2;
    RunCons(Machine(Searching, [], []), Enumerated(Listed([Probe])), t2);
    var t0 := [InitDone(Success)] + t1;
    RunCons(Start(), InitDone(Success), t1);
    assert t0 == [InitDone(Success), Enumerated(Listed([Probe])), Opened(OtherError)];
  }
}
