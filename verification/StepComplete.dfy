/** The window bookkeeping when a chunk is written, and the DATA step as a whole. */
module StepComplete {
  import opened Bytes
  import opened Sums
  import opened Wire
  import opened Sinks
  import opened Receivers
  import opened Network
  import opened Invariant
  import opened WindowFacts
  import opened StepData

  /** The HASH-REQ for window w. */
  function AskFrame(n: nat, w: nat): Frame {
    HashReq(U32(w * HASH_WINDOW), U32(WindowSize(n, w)))
  }

  lemma AskWeights(n: nat, w: nat, out: seq<Frame>, j: nat)
    requires w < Windows(n) && n < MAX32
    ensures Requested(out + [AskFrame(n, w)], j) == Requested(out, j)
    ensures Sum(out + [AskFrame(n, w)], AskWeight(j)) == Sum(out, AskWeight(j)) + if j == w then 1 else 0
    ensures AskOk(n, AskFrame(n, w))
  {
    WindowStart(n, w);
    SumAppend(out, AskFrame(n, w), ReqWeight(j));
    SumAppend(out, AskFrame(n, w), AskWeight(j));
  }

  /** Asking for hashes does not concern chunks. */
  lemma AskChunks(sink: Sink, queue: seq<nat>, out: seq<Frame>, back: seq<Frame>, partial: map<nat, Partial>,
                  start: Sink, attempts: map<nat, nat>, served: seq<nat>, w: nat)
    requires Shaped(sink) && |start.held| == |served| == |sink.held| < MAX32 && w < Windows(|sink.held|)
    requires ChunksOk(sink, queue, out, back, partial) && TriesOk(start, queue, out, attempts, served)
    ensures ChunksOk(sink, queue, out + [AskFrame(|sink.held|, w)], back, partial)
    ensures TriesOk(start, queue, out + [AskFrame(|sink.held|, w)], attempts, served)
    ensures Total(|sink.held|, FlightAt(out + [AskFrame(|sink.held|, w)], back, partial))
            == Total(|sink.held|, FlightAt(out, back, partial))
  {
    var more := out + [AskFrame(|sink.held|, w)];
    forall j: nat | j < |sink.held|
      ensures ChunkOk(sink, queue, more, back, partial, j) && TryOk(start, queue, more, attempts, served, j)
      ensures Requested(more, j) == Requested(out, j)
    {
      AskWeights(|sink.held|, w, out, j);
      assert ChunkOk(sink, queue, out, back, partial, j) && TryOk(start, queue, out, attempts, served, j);
    }
    TotalSame(|sink.held|, FlightAt(more, back, partial), FlightAt(out, back, partial));
  }

  /** Writing a chunk that was not held finds its window pending; the window stays
      pending while it lacks another chunk, and is asked about once it is full. */
  lemma CompleteWindows(sink: Sink, winRecv: seq<int>, winState: seq<WinState>, out: seq<Frame>, back: seq<Frame>,
                        answered: set<nat>, cache: map<nat, Digest>, i: nat, d: seq<byte>)
    requires Shaped(sink) && |winState| == |winRecv| == Windows(|sink.held|) && |sink.held| < MAX32
    requires i < |sink.held| && !sink.held[i] && Shaped(Write(sink, i, d))
    requires WindowsOk(sink, winRecv, winState, out, back, answered, cache)
    ensures var w := i / HASH_WINDOW;
            var more := winRecv[w := winRecv[w] + 1];
            winState[w] == Pending && more[w] <= WindowSize(|sink.held|, w) &&
            (more[w] < WindowSize(|sink.held|, w) ==>
               WindowsOk(Write(sink, i, d), more, winState, out, back, answered, cache)) &&
            (more[w] == WindowSize(|sink.held|, w) ==>
               WindowsOk(Write(sink, i, d), more, winState[w := Asked], out + [AskFrame(|sink.held|, w)], back,
                         answered, cache))
  {
    var n, w := |sink.held|, i / HASH_WINDOW;
    var more := winRecv[w := winRecv[w] + 1];
    var after := Write(sink, i, d);
    assert after.held == sink.held[i := true];
    assert WindowOk(sink, winRecv, winState, out, back, answered, cache, w);
    WindowFull(sink.held, w);
    WindowFull(after.held, w);
    WindowGains(sink.held, i, w);
    var (states, asks) := if more[w] == WindowSize(n, w) then (winState[w := Asked], out + [AskFrame(n, w)])
                          else (winState, out);
    forall v: nat | v < |states| ensures WindowOk(after, more, states, asks, back, answered, cache, v) {
      assert WindowOk(sink, winRecv, winState, out, back, answered, cache, v);
      WindowGains(sink.held, i, v);
      AskWeights(n, w, out, v);
      if v != w && winState[v] == Verified {
        assert HashesAgree(after, cache, v);
      }
    }
  }

  lemma AskedVerified(winState: seq<WinState>, w: nat, to: WinState)
    requires w < |winState|
    ensures Total(|winState|, VerifiedAt(winState[w := to]))
            == Total(|winState|, VerifiedAt(winState)) + (if to == Verified then 1 else 0)
               - (if winState[w] == Verified then 1 else 0)
  {
    TotalChange(|winState|, VerifiedAt(winState), VerifiedAt(winState[w := to]), w);
  }

  // ----- the step

  /** The receiver once a frame has completed chunk i with bytes d, n of them in that frame. */
  function WrittenBy(r: Receiver, i: nat, d: seq<byte>, n: nat, ask: bool): Receiver
    requires i < |r.sink.disk| == |r.sink.held| == |r.sink.hashes| && i / HASH_WINDOW < |r.winRecv| == |r.winState|
  {
    var w := i / HASH_WINDOW;
    r.(progress := r.progress + n, partial := r.partial - {i}, outstanding := r.outstanding - 1,
       sink := Write(r.sink, i, d), winRecv := r.winRecv[w := r.winRecv[w] + 1],
       winState := if ask then r.winState[w := Asked] else r.winState,
       out := if ask then r.out + [AskFrame(r.Chunks(), w)] else r.out)
  }

  /** The state once frame k has completed chunk i with bytes d, n of them in that
      frame: its window pending still, or asked about. */
  ghost function Written(s: Net, k: nat, i: nat, d: seq<byte>, n: nat, ask: bool): Net
    requires Formed(s.r) && k < |s.h.out| && i < s.r.Chunks()
  {
    s.(h := s.h.(out := Without(s.h.out, k)), r := WrittenBy(s.r, i, d, n, ask))
  }

  /** onData on a frame that fits its chunk. */
  lemma DataFits(r: Receiver, i: nat, f: Frame)
    requires Formed(r) && f.Data? && f.index == i < r.Chunks() && f.offset + |f.payload| <= r.sink.layout.Span(i)
    ensures var w := i / HASH_WINDOW;
            React(r, f) ==
            if Have(r.partial, i) + |f.payload| < r.sink.layout.Span(i)
            then r.(progress := r.progress + |f.payload|, partial := Buffered(r.sink, r.partial, i, f))
            else WrittenBy(r, i, NewBuf(r.sink, r.partial, i, f), |f.payload|,
                           r.winRecv[w] + 1 == WindowSize(r.Chunks(), w) && r.winState[w] == Pending)
  {
    hide OnHash;
  }

  /** What the receiver makes of a DATA frame that fits. */
  lemma ReactsToData(c: Setup, s: Net, k: nat, i: nat, f: Frame)
    requires Base(c, s) && Arrives(s.r.sink, s.h.out, s.r.partial, k, i, f)
    ensures var r, w := s.r, i / HASH_WINDOW;
            PeerReacts(s, k) ==
            if Have(r.partial, i) + |f.payload| < r.sink.layout.Span(i)
            then s.(h := s.h.(out := Without(s.h.out, k)),
                    r := r.(progress := r.progress + |f.payload|, partial := Buffered(r.sink, r.partial, i, f)))
            else Written(s, k, i, NewBuf(r.sink, r.partial, i, f), |f.payload|,
                         r.winRecv[w] + 1 == WindowSize(r.Chunks(), w) && r.winState[w] == Pending)
  {
    hide React;
    hide Buffered;
    hide NewBuf;
    hide Sum;
    hide Total;
    DataFits(s.r, i, f);
  }

  /** A DATA frame that leaves its chunk incomplete. */
  lemma BufferStep(c: Setup, s: Net, k: nat, i: nat, f: Frame)
    requires Core(c, s) && Arrives(s.r.sink, s.h.out, s.r.partial, k, i, f)
    requires Have(s.r.partial, i) + |f.payload| < c.start.layout.Span(i)
    ensures Core(c, PeerReacts(s, k)) && PeerReacts(s, k).r.outstanding == s.r.outstanding
    ensures PeerReacts(s, k).r.sink == s.r.sink
  {
    hide Sum;
    hide Total;
    hide React;
    hide ChunksOk;
    hide TriesOk;
    hide ContentsOk;
    hide OriginsOk;
    hide WindowsOk;
    hide RepliesOk;
    hide AsksOk;
    var r := s.r;
    ReactsToData(c, s, k, i, f);
    BufferChunks(r.sink, r.queue, r.out, s.h.out, r.partial, k, i, f);
    BufferContents(r.sink, r.partial, s.h.out, s.served, s.wire, k, i, f);
    BufferProgress(r.sink, r.progress, r.partial, i, f);
    TakeWindows(r.sink, r.winRecv, r.winState, r.out, s.h.out, s.answered, s.h.cache, k);
    TakeReplies(c.start.layout, s.h.cache, s.h.out, k);
    TakeWeights(s.h.out, k, 0);
  }

  /** The parts of the invariant that do not depend on whether the window is asked about. */
  ghost predicate WrittenOk(c: Setup, s: Net, back: seq<Frame>, sink: Sink, partial: map<nat, Partial>, progress: int)
    requires Base(c, s)
  {
    Shaped(sink) && sink.layout == c.start.layout && |sink.held| == s.r.Chunks() &&
    (forall i :: i in partial ==> i < s.r.Chunks() && |partial[i].buf| == sink.layout.Span(i)) &&
    ChunksOk(sink, s.r.queue, s.r.out, back, partial) &&
    OutstandingOk(s.r.Chunks(), s.r.outstanding - 1, s.r.out, back, partial) &&
    ContentsOk(sink, partial, back, s.served, s.wire) && ProgressOk(progress, sink, partial) &&
    OriginsOk(c.start, sink, s.r.attempts, s.h.cache) && RepliesOk(c.start.layout, s.h.cache, back) &&
    Sum(back, DoneWeight()) == Sum(s.h.out, DoneWeight())
  }

  lemma PlainCore(c: Setup, s: Net, k: nat, i: nat, d: seq<byte>, n: nat)
    requires Core(c, s) && k < |s.h.out| && i < s.r.Chunks()
    requires WrittenOk(c, s, Without(s.h.out, k), Write(s.r.sink, i, d), s.r.partial - {i}, s.r.progress + n)
    requires var t := Written(s, k, i, d, n, false);
             WindowsOk(t.r.sink, t.r.winRecv, t.r.winState, t.r.out, t.h.out, t.answered, t.h.cache)
    ensures Core(c, Written(s, k, i, d, n, false))
  {
  }

  lemma AskedCore(c: Setup, s: Net, k: nat, i: nat, d: seq<byte>, n: nat)
    requires Core(c, s) && k < |s.h.out| && i < s.r.Chunks() && s.r.winState[i / HASH_WINDOW] == Pending
    requires WrittenOk(c, s, Without(s.h.out, k), Write(s.r.sink, i, d), s.r.partial - {i}, s.r.progress + n)
    requires var t := Written(s, k, i, d, n, true);
             WindowsOk(t.r.sink, t.r.winRecv, t.r.winState, t.r.out, t.h.out, t.answered, t.h.cache)
    ensures Core(c, Written(s, k, i, d, n, true))
  {
    hide Sum;
    hide Total;
    var w := i / HASH_WINDOW;
    AskChunks(Write(s.r.sink, i, d), s.r.queue, s.r.out, Without(s.h.out, k), s.r.partial - {i}, c.start,
              s.r.attempts, s.served, w);
    AskedVerified(s.r.winState, w, Asked);
    AskWeights(s.r.Chunks(), w, s.r.out, 0);
  }

  /** Writing the completed chunk, bookkeeping of windows apart. */
  lemma WritesChunk(c: Setup, s: Net, k: nat, i: nat, f: Frame)
    requires Core(c, s) && Arrives(s.r.sink, s.h.out, s.r.partial, k, i, f)
    requires Have(s.r.partial, i) + |f.payload| >= c.start.layout.Span(i)
    ensures var d := NewBuf(s.r.sink, s.r.partial, i, f);
            WrittenOk(c, s, Without(s.h.out, k), Write(s.r.sink, i, d), s.r.partial - {i},
                      s.r.progress + |f.payload|) &&
            d == s.wire[i]
  {
    hide Sum;
    hide Total;
    var r, d := s.r, NewBuf(s.r.sink, s.r.partial, i, f);
    TakeWeights(s.h.out, k, i);
    CompleteChunks(r.sink, r.queue, r.out, s.h.out, r.partial, k, i, f, d);
    CompleteContents(r.sink, r.partial, s.h.out, s.served, s.wire, k, i, f, d);
    CompleteProgress(r.sink, r.progress, r.partial, i, |f.payload|, d);
    CompleteOrigins(c.start, r.sink, r.attempts, s.h.cache, i, d);
    TakeReplies(c.start.layout, s.h.cache, s.h.out, k);
  }

  /** A DATA frame that completes its chunk. */
  lemma CompleteStep(c: Setup, s: Net, k: nat, i: nat, f: Frame)
    requires Core(c, s) && Arrives(s.r.sink, s.h.out, s.r.partial, k, i, f)
    requires Have(s.r.partial, i) + |f.payload| >= c.start.layout.Span(i)
    ensures Core(c, PeerReacts(s, k)) && PeerReacts(s, k).r.outstanding == s.r.outstanding - 1
    ensures PeerReacts(s, k).r.sink == Write(s.r.sink, i, s.wire[i])
  {
    hide React;
    hide Sum;
    hide Total;
    hide NewBuf;
    hide Write;
    hide ChunksOk;
    hide TriesOk;
    hide ContentsOk;
    hide OriginsOk;
    hide WindowsOk;
    hide RepliesOk;
    hide AsksOk;
    var r, d, back := s.r, NewBuf(s.r.sink, s.r.partial, i, f), Without(s.h.out, k);
    ReactsToData(c, s, k, i, f);
    WritesChunk(c, s, k, i, f);
    TakeWindows(r.sink, r.winRecv, r.winState, r.out, s.h.out, s.answered, s.h.cache, k);
    CompleteWindows(r.sink, r.winRecv, r.winState, r.out, back, s.answered, s.h.cache, i, d);
    if r.winRecv[i / HASH_WINDOW] + 1 == WindowSize(r.Chunks(), i / HASH_WINDOW) {
      AskedCore(c, s, k, i, d, |f.payload|);
    } else {
      PlainCore(c, s, k, i, d, |f.payload|);
    }
  }

  /** Taking a DATA frame keeps the invariant; the only write it can cause is of
      the whole chunk, with the bytes it was served with. */
  lemma DataStep(c: Setup, s: Net, k: nat)
    requires Core(c, s) && k < |s.h.out| && s.h.out[k].Data?
    ensures Core(c, PeerReacts(s, k)) && PeerReacts(s, k).r.outstanding <= s.r.outstanding
    ensures var i := s.h.out[k].index;
            i < s.r.Chunks() && !s.r.sink.held[i] &&
            (PeerReacts(s, k).r.sink == s.r.sink || PeerReacts(s, k).r.sink == Write(s.r.sink, i, s.wire[i]))
  {
    var f := s.h.out[k];
    DataArrives(c, s, k);
    if Have(s.r.partial, f.index) + |f.payload| < c.start.layout.Span(f.index) {
      BufferStep(c, s, k, f.index, f);
    } else {
      CompleteStep(c, s, k, f.index, f);
    }
  }
}
