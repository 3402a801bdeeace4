/** The invariant holds when a session starts and after every step, so in every
    state any run can reach. */
module Sessions {
  import opened Bytes
  import opened Sums
  import opened Wire
  import opened Sinks
  import opened Receivers
  import opened Hosts
  import opened Network
  import opened Invariant
  import opened WindowFacts
  import opened StepComplete
  import opened StepPeer
  import opened StepFill
  import opened StepHost
  import opened StepServe

  // ----- the start

  lemma {:induction false} MissingWeight(held: seq<bool>, k: nat, i: nat)
    ensures Queued(MissingFrom(held, k), i) == if k <= i < |held| && !held[i] then 1 else 0
    decreases |held| - k
  {
    if k < |held| {
      MissingWeight(held, k + 1, i);
      if !held[k] {
        assert MissingFrom(held, k) == [k] + MissingFrom(held, k + 1);
        SumConcat<nat>([k], MissingFrom(held, k + 1), QueueWeight(i));
        assert [k][1..] == [];
      } else {
        assert MissingFrom(held, k) == MissingFrom(held, k + 1);
      }
    }
  }

  /** Window v while the receiver is set up: looked at if below w. */
  ghost predicate WindowSet(sink: Sink, winRecv: seq<int>, winState: seq<WinState>, out: seq<Frame>, v: nat, w: nat,
                            cache: map<nat, Digest>)
    requires Shaped(sink) && v < |winState| == |winRecv|
  {
    if v < w then WindowOk(sink, winRecv, winState, out, [], {}, cache, v)
    else winState[v] == Pending && Asks(out, [], v) == 0 && winRecv[v] == HeldInWindow(sink.held, v)
  }

  /** Every window while the receiver is set up: those below w have been looked at. */
  ghost predicate WindowsSet(sink: Sink, winRecv: seq<int>, winState: seq<WinState>, out: seq<Frame>, w: nat,
                             cache: map<nat, Digest>)
    requires Shaped(sink) && |winState| == |winRecv|
  {
    forall v: nat :: v < |winState| ==> WindowSet(sink, winRecv, winState, out, v, w, cache)
  }

  /** A receiver being set up. */
  ghost predicate SettingUp(c: Setup, r: Receiver, w: nat, cache: map<nat, Digest>) {
    ValidSetup(c) && Formed(r) && r.sink == c.start && w <= |r.winState| &&
    r == Begin(c.start).(winState := r.winState, out := r.out) && AsksOk(r.Chunks(), r.out) &&
    ChunksOk(r.sink, r.queue, r.out, [], map[]) &&
    TriesOk(c.start, r.queue, r.out, map[], Zeros(|c.start.held|)) &&
    Total(r.Chunks(), FlightAt(r.out, [], map[])) == 0 &&
    Total(|r.winState|, VerifiedAt(r.winState)) == 0 &&
    WindowsSet(r.sink, r.winRecv, r.winState, r.out, w, cache)
  }

  lemma BeginChunks(s: Sink)
    requires Shaped(s)
    ensures ChunksOk(s, Missing(s), [], [], map[]) && TriesOk(s, Missing(s), [], map[], Zeros(|s.held|))
    ensures Total(|s.held|, FlightAt([], [], map[])) == 0
  {
    var zero := (i: nat) => 0;
    forall i: nat | i < |s.held|
      ensures ChunkOk(s, Missing(s), [], [], map[], i) && TryOk(s, Missing(s), [], map[], Zeros(|s.held|), i)
    {
      MissingWeight(s.held, 0, i);
    }
    TotalConst(|s.held|, zero, 0);
    TotalSame(|s.held|, FlightAt([], [], map[]), zero);
  }

  lemma BeginSettingUp(c: Setup, cache: map<nat, Digest>)
    requires ValidSetup(c)
    ensures SettingUp(c, Begin(c.start), 0, cache)
  {
    hide Missing;
    var r := Begin(c.start);
    var zero := (i: nat) => 0;
    BeginChunks(c.start);
    TotalConst(|r.winState|, zero, 0);
    TotalSame(|r.winState|, VerifiedAt(r.winState), zero);
  }

  lemma AskedWindow(sink: Sink, winRecv: seq<int>, winState: seq<WinState>, out: seq<Frame>, v: nat, w: nat,
                    cache: map<nat, Digest>)
    requires Shaped(sink) && v < |winState| == |winRecv| == Windows(|sink.held|) && w < |winState|
    requires |sink.held| < MAX32
    requires WindowSet(sink, winRecv, winState, out, v, w, cache) && winState[w] == Pending
    requires winRecv[w] == WindowSize(|sink.held|, w)
    ensures WindowSet(sink, winRecv, winState[w := Asked], out + [AskFrame(|sink.held|, w)], v, w + 1, cache)
  {
    hide Sum;
    hide AskFrame;
    hide HashesAgree;
    AskWeights(|sink.held|, w, out, v);
  }

  lemma SkippedWindow(sink: Sink, winRecv: seq<int>, winState: seq<WinState>, out: seq<Frame>, v: nat, w: nat,
                      cache: map<nat, Digest>)
    requires Shaped(sink) && v < |winState| == |winRecv| == Windows(|sink.held|) && w < |winState|
    requires WindowSet(sink, winRecv, winState, out, v, w, cache)
    requires winRecv[w] != WindowSize(|sink.held|, w)
    ensures WindowSet(sink, winRecv, winState, out, v, w + 1, cache)
  {
    hide Sum;
    WindowFull(sink.held, w);
  }

  lemma AskOneWindow(sink: Sink, winRecv: seq<int>, winState: seq<WinState>, out: seq<Frame>, w: nat,
                     cache: map<nat, Digest>)
    requires Shaped(sink) && |winState| == |winRecv| == Windows(|sink.held|) && |sink.held| < MAX32 && w < |winState|
    requires WindowsSet(sink, winRecv, winState, out, w, cache)
    ensures if winRecv[w] == WindowSize(|sink.held|, w)
            then WindowsSet(sink, winRecv, winState[w := Asked], out + [AskFrame(|sink.held|, w)], w + 1, cache)
            else WindowsSet(sink, winRecv, winState, out, w + 1, cache)
  {
    var next := w + 1;
    if winRecv[w] == WindowSize(|sink.held|, w) {
      StillPending(sink, winRecv, winState, out, w, cache);
      var states, sent := winState[w := Asked], out + [AskFrame(|sink.held|, w)];
      forall v: nat | v < |winState| ensures WindowSet(sink, winRecv, states, sent, v, next, cache) {
        AskedWindow(sink, winRecv, winState, out, v, w, cache);
      }
    } else {
      forall v: nat | v < |winState| ensures WindowSet(sink, winRecv, winState, out, v, next, cache) {
        SkippedWindow(sink, winRecv, winState, out, v, w, cache);
      }
    }
  }

  /** Looking at window w. */
  lemma AskOne(c: Setup, r: Receiver, w: nat, cache: map<nat, Digest>)
    requires SettingUp(c, r, w, cache) && w < |r.winState|
    ensures SettingUp(c, if r.winRecv[w] == WindowSize(r.Chunks(), w) then RequestHashes(r, w) else r, w + 1, cache)
  {
    hide Sum;
    hide Total;
    hide WindowsSet;
    hide ChunksOk;
    hide TriesOk;
    hide Missing;
    hide Begin;
    assert r.winState[w] == Pending by { StillPending(r.sink, r.winRecv, r.winState, r.out, w, cache); }
    AskOneWindow(r.sink, r.winRecv, r.winState, r.out, w, cache);
    AskChunks(r.sink, r.queue, r.out, [], map[], c.start, map[], Zeros(|c.start.held|), w);
    AskedVerified(r.winState, w, Asked);
    AskWeights(r.Chunks(), w, r.out, w);
  }

  lemma StillPending(sink: Sink, winRecv: seq<int>, winState: seq<WinState>, out: seq<Frame>, w: nat,
                     cache: map<nat, Digest>)
    requires Shaped(sink) && |winState| == |winRecv| && w < |winState|
    requires WindowsSet(sink, winRecv, winState, out, w, cache)
    ensures winState[w] == Pending
  {
    assert WindowSet(sink, winRecv, winState, out, w, w, cache);
  }

  lemma {:induction false} AskCompleteSets(c: Setup, r: Receiver, w: nat, cache: map<nat, Digest>)
    requires SettingUp(c, r, w, cache)
    ensures SettingUp(c, AskComplete(r, w), |AskComplete(r, w).winState|, cache)
    decreases |r.winState| - w
  {
    hide Sum;
    hide Total;
    hide ChunksOk;
    hide TriesOk;
    hide WindowsSet;
    hide AsksOk;
    hide Begin;
    hide RequestHashes;
    if w < |r.winState| {
      AskOne(c, r, w, cache);
      AskCompleteSets(c, if r.winRecv[w] == WindowSize(r.Chunks(), w) then RequestHashes(r, w) else r, w + 1, cache);
    }
  }

  /** A session's first state, given its receiver. */
  ghost function With(c: Setup, r: Receiver, cache: map<nat, Digest>): Net {
    var n := |c.start.held|;
    Net(r, Host(c.start.layout, cache, false, false, 0, false, []), {}, Zeros(n), Blanks(n))
  }

  lemma SetWindows(sink: Sink, winRecv: seq<int>, winState: seq<WinState>, out: seq<Frame>, cache: map<nat, Digest>)
    requires Shaped(sink) && |winState| == |winRecv| && WindowsSet(sink, winRecv, winState, out, |winState|, cache)
    ensures WindowsOk(sink, winRecv, winState, out, [], {}, cache)
  {
    forall v: nat | v < |winState| ensures WindowOk(sink, winRecv, winState, out, [], {}, cache, v) {
      assert WindowSet(sink, winRecv, winState, out, v, |winState|, cache);
    }
  }

  lemma SetUpKernel(c: Setup, r: Receiver, cache: map<nat, Digest>)
    requires SettingUp(c, r, |r.winState|, cache)
    ensures Kernel(c, With(c, r, cache)) && r.outstanding == 0
  {
    hide Missing;
    SetWindows(r.sink, r.winRecv, r.winState, r.out, cache);
    QuietStart(c.start);
  }

  /** With nothing to fetch the receiver asks for an empty range of hashes. */
  lemma EmptyKernel(c: Setup, r: Receiver, cache: map<nat, Digest>)
    requires Kernel(c, With(c, r, cache)) && r.Chunks() == 0
    ensures Core(c, With(c, Send(r, HashReq(0, 0)), cache))
  {
    assert Windows(0) == 0;
  }

  /** Nothing has arrived and nothing has been tried. */
  lemma QuietStart(s: Sink)
    requires Shaped(s)
    ensures ProgressOk(ReceivedBytes(s), s, map[]) && OriginsOk(s, s, map[], map[])
    ensures forall k :: 0 <= k < |Missing(s)| ==> Missing(s)[k] < |s.held|
  {
    var zero := (i: nat) => 0;
    TotalConst(|s.held|, zero, 0);
    TotalSame(|s.held|, HaveAt(map[]), zero);
    MissingExact(s.held, 0);
    assert forall k :: 0 <= k < |Missing(s)| ==> Missing(s)[k] in Missing(s);
  }

  /** Every session starts in the invariant, whatever the sink and whatever the host knows. */
  lemma StartInv(c: Setup, cache: map<nat, Digest>)
    requires ValidSetup(c)
    ensures Inv(c, Initial(c, cache))
  {
    hide AskComplete;
    BeginSettingUp(c, cache);
    AskCompleteSets(c, Begin(c.start), 0, cache);
    var r := AskComplete(Begin(c.start), 0);
    SetUpKernel(c, r, cache);
    if r.Chunks() == 0 {
      EmptyKernel(c, r, cache);
      FillKeeps(c, With(c, Send(r, HashReq(0, 0)), cache));
    } else {
      FillKeeps(c, With(c, r, cache));
    }
  }

  // ----- every step

  /** The receiver takes a frame: the invariant is kept, or the run ends because
      some chunk was rejected a fourth time. No other error is possible. */
  lemma PeerStep(c: Setup, s: Net, k: nat)
    requires Inv(c, s) && Enabled(c, s, PeerTakes(k))
    ensures var t := Next(c, s, PeerTakes(k));
            if t.r.fault.None? then Inv(c, t)
            else t.r.fault.value.TooManyAttempts? && Tried(s.r.attempts, t.r.fault.value.chunk) >= MAX_ATTEMPTS
  {
    hide React;
    var f, u := s.h.out[k], PeerReacts(s, k);
    assert ReplyOk(c.start.layout, s.h.cache, f);
    if f.Data? {
      DataStep(c, s, k);
    } else if f.Hash? {
      HashStep(c, s, k);
    } else {
      DoneStep(c, s, k);
    }
    if u.r.fault.None? {
      FillKeeps(c, u);
      FillFrame(u.r);
    }
  }

  /** Another session reads a chunk for the first time. */
  lemma ElsewhereStep(c: Setup, s: Net, i: nat, d: seq<byte>)
    requires Inv(c, s) && Enabled(c, s, Elsewhere(i, d))
    ensures Inv(c, Next(c, s, Elsewhere(i, d)))
  {
    GrowCache(c, s, Learn(s.h.cache, i, d));
  }

  /** Every step any party can take keeps the invariant or ends the run by that one error. */
  lemma StepKeeps(c: Setup, s: Net, a: Label)
    requires Inv(c, s) && Enabled(c, s, a)
    ensures var t := Next(c, s, a);
            if t.r.fault.None? then Inv(c, t)
            else t.r.fault.value.TooManyAttempts? && Tried(s.r.attempts, t.r.fault.value.chunk) >= MAX_ATTEMPTS
  {
    match a
    case HostTakes(k, bytes) => HostStep(c, s, k, bytes);
    case PeerTakes(k) => PeerStep(c, s, k);
    case Elsewhere(i, d) => ElsewhereStep(c, s, i, d);
  }

  // ----- runs

  ghost predicate Ready(c: Setup, s: Net) {
    ValidSetup(c) && Formed(s.r) && |s.wire| == |c.start.held|
  }

  /** The steps of run can happen in turn from s. */
  ghost predicate Legal(c: Setup, s: Net, run: seq<Label>)
    decreases |run|
  {
    run == [] || (Ready(c, s) && Enabled(c, s, run[0]) && Legal(c, Next(c, s, run[0]), run[1..]))
  }

  ghost function Outcome(c: Setup, s: Net, run: seq<Label>): Net
    requires Legal(c, s, run)
    decreases |run|
  {
    if run == [] then s else Outcome(c, Next(c, s, run[0]), run[1..])
  }

  /** Every state a session can reach, from any sink, with any host cache, by any
      steps in any order, is in the invariant unless the receiver has given up. */
  lemma ReachableInv(c: Setup, cache: map<nat, Digest>, run: seq<Label>)
    requires ValidSetup(c) && Legal(c, Initial(c, cache), run)
    ensures var t := Outcome(c, Initial(c, cache), run);
            if t.r.fault.None? then Inv(c, t) else t.r.fault.value.TooManyAttempts?
  {
    StartInv(c, cache);
    RunKeeps(c, Initial(c, cache), run);
  }

  /** After any run the receiver has faulted in the one way it can, or the invariant holds. */
  lemma {:induction false} RunKeeps(c: Setup, s: Net, run: seq<Label>)
    requires Inv(c, s) && Legal(c, s, run)
    ensures var t := Outcome(c, s, run);
            if t.r.fault.None? then Inv(c, t) else t.r.fault.value.TooManyAttempts?
    decreases |run|
  {
    if run != [] {
      StepKeeps(c, s, run[0]);
      var t := Next(c, s, run[0]);
      if t.r.fault.None? {
        RunKeeps(c, t, run[1..]);
      } else {
        assert run[1..] == [];
      }
    }
  }
}
