/** Taking a HASH frame keeps the invariant: the window is verified, or its
    rejected chunks go from held back to the queue. */
module StepHash {
  import opened Bytes
  import opened Sums
  import opened Wire
  import opened Layouts
  import opened Sinks
  import opened Receivers
  import opened Hosts
  import opened Network
  import opened Invariant
  import opened WindowFacts
  import opened StepData
  import opened StepComplete

  // ----- the frame

  /** The k-th frame in transit is the host's answer about window w, which is
      complete and has nothing else in transit. */
  ghost predicate AnswerArrives(sink: Sink, winRecv: seq<int>, winState: seq<WinState>, out: seq<Frame>,
                                back: seq<Frame>, cache: map<nat, Digest>, k: nat, w: nat, f: Frame)
  {
    Shaped(sink) && |winState| == |winRecv| == Windows(|sink.held|) && k < |back| && back[k] == f && f.Hash? &&
    w < |winState| && f.first == w * HASH_WINDOW && f.count == WindowSize(|sink.held|, w) &&
    f.first + f.count <= |sink.held| &&
    winState[w] == Asked && Asks(out, Without(back, k), w) == 0 &&
    winRecv[w] == WindowSize(|sink.held|, w) == HeldInWindow(sink.held, w) &&
    (forall i: nat :: i < |sink.held| && i / HASH_WINDOW == w ==> sink.held[i] && i in cache) &&
    (forall i: nat :: i < |sink.held| && i / HASH_WINDOW == w <==> f.first <= i < f.first + f.count) &&
    (forall i: nat :: f.first <= i < f.first + f.count ==> i in cache) &&
    f.payload == Flatten(CachedRange(cache, f.first, f.count))
  }

  lemma HashArrives(c: Setup, s: Net, k: nat) returns (w: nat)
    requires Core(c, s) && k < |s.h.out| && s.h.out[k].Hash? && s.r.Chunks() > 0
    ensures AnswerArrives(s.r.sink, s.r.winRecv, s.r.winState, s.r.out, s.h.out, s.h.cache, k, w, s.h.out[k])
    ensures w == s.h.out[k].first / HASH_WINDOW && w in s.answered
  {
    var f := s.h.out[k];
    w := f.first / HASH_WINDOW;
    assert ReplyOk(c.start.layout, s.h.cache, f);
    assert WindowOk(s.r.sink, s.r.winRecv, s.r.winState, s.r.out, s.h.out, s.answered, s.h.cache, w);
    TakeWeights(s.h.out, k, w);
    WindowFull(s.r.sink.held, w);
    WindowStart(s.r.Chunks(), w);
  }

  /** A chunk of the range is rejected exactly when its recorded hash is not the cached one. */
  lemma MismatchIff(sink: Sink, cache: map<nat, Digest>, first: nat, count: nat, i: nat)
    requires |sink.held| == |sink.hashes|
    requires forall j: nat :: first <= j < first + count ==> j in cache
    ensures Mismatch(sink, first, Flatten(CachedRange(cache, first, count)), i) <==>
            first <= i < first + count && i < |sink.held| && sink.held[i] && sink.hashes[i] != cache[i]
  {
    var ds := CachedRange(cache, first, count);
    if first <= i < first + count {
      FlattenAt(ds, i - first);
      assert ds[i - first] == cache[first + (i - first)];
    }
  }

  /** The other windows do not notice an answer being taken. */
  lemma OtherWindow(sink: Sink, winRecv: seq<int>, winState: seq<WinState>, out: seq<Frame>, back: seq<Frame>,
                    answered: set<nat>, cache: map<nat, Digest>, k: nat, w: nat, v: nat)
    requires Shaped(sink) && |winState| == |winRecv| && k < |back| && back[k].Hash? && back[k].first == w * HASH_WINDOW
    requires v < |winState| && v != w && WindowOk(sink, winRecv, winState, out, back, answered, cache, v)
    ensures WindowOk(sink, winRecv, winState, out, Without(back, k), answered, cache, v)
  {
    TakeWeights(back, k, v);
  }

  /** Chunks do not notice a frame without data being taken. */
  lemma TakeChunks(sink: Sink, queue: seq<nat>, out: seq<Frame>, back: seq<Frame>, partial: map<nat, Partial>,
                   served: seq<nat>, wire: seq<seq<byte>>, k: nat)
    requires Shaped(sink) && k < |back| && !back[k].Data? && |sink.held| == |served| == |wire|
    requires ChunksOk(sink, queue, out, back, partial) && ContentsOk(sink, partial, back, served, wire)
    ensures ChunksOk(sink, queue, out, Without(back, k), partial)
    ensures ContentsOk(sink, partial, Without(back, k), served, wire)
    ensures Total(|sink.held|, FlightAt(out, Without(back, k), partial))
            == Total(|sink.held|, FlightAt(out, back, partial))
  {
    forall i: nat | i < |sink.held|
      ensures ChunkOk(sink, queue, out, Without(back, k), partial, i)
      ensures ContentOk(sink, partial, Without(back, k), served, wire, i)
      ensures Flying(Without(back, k), i) == Flying(back, i)
    {
      assert ChunkOk(sink, queue, out, back, partial, i) && ContentOk(sink, partial, back, served, wire, i);
      TakeWeights(back, k, i);
      if Flying(back, i) + Have(partial, i) > 0 {
        StillArriving(partial, back, wire[i], k, i);
      }
    }
    TotalSame(|sink.held|, FlightAt(out, Without(back, k), partial), FlightAt(out, back, partial));
  }

  lemma StillArriving(partial: map<nat, Partial>, back: seq<Frame>, d: seq<byte>, k: nat, i: nat)
    requires k < |back| && !back[k].Data? && ArrivingOk(partial, back, d, i)
    ensures ArrivingOk(partial, Without(back, k), d, i)
  {
    forall g | g in Without(back, k) ensures CarriesChunk(g, i, d) {
      WithoutMember(back, k, g);
    }
    forall b: nat | b < |d| && InTransit(back, i, b) ensures InTransit(Without(back, k), i, b) {
      var g :| g in back && CoversByte(g, i, b);
      WithoutMember(back, k, g);
    }
  }

  // ----- every hash agrees

  lemma NothingRejected(sink: Sink, cache: map<nat, Digest>, w: nat, first: nat, count: nat)
    requires Shaped(sink) && forall j: nat :: first <= j < first + count ==> j in cache
    requires forall i: nat :: i < |sink.held| && i / HASH_WINDOW == w ==> sink.held[i] && first <= i < first + count
    requires Bad(sink, first, Flatten(CachedRange(cache, first, count))) == []
    ensures HashesAgree(sink, cache, w)
    ensures Verify(sink, first, Flatten(CachedRange(cache, first, count))) == sink
  {
    var hs := Flatten(CachedRange(cache, first, count));
    BadExact(sink, first, hs);
    forall i: nat | i < |sink.held| && i / HASH_WINDOW == w ensures i in cache && sink.hashes[i] == cache[i] {
      MismatchIff(sink, cache, first, count, i);
      assert i !in Bad(sink, first, hs);
    }
    assert Cleared(sink.held, []) == sink.held;
  }

  lemma AcceptStep(c: Setup, s: Net, k: nat, w: nat, f: Frame)
    requires Core(c, s)
    requires AnswerArrives(s.r.sink, s.r.winRecv, s.r.winState, s.r.out, s.h.out, s.h.cache, k, w, f) && w in s.answered
    requires Bad(s.r.sink, f.first, f.payload) == []
    ensures Core(c, s.(h := s.h.(out := Without(s.h.out, k)), r := Accept(s.r, w)))
    ensures Verify(s.r.sink, f.first, f.payload) == s.r.sink
  {
    hide Sum;
    hide Total;
    hide ChunksOk;
    hide TriesOk;
    hide ContentsOk;
    hide OriginsOk;
    hide RepliesOk;
    hide AsksOk;
    hide HashesAgree;
    var r, back := s.r, Without(s.h.out, k);
    var states := r.winState[w := Verified];
    NothingRejected(r.sink, s.h.cache, w, f.first, f.count);
    TakeChunks(r.sink, r.queue, r.out, s.h.out, r.partial, s.served, s.wire, k);
    TakeReplies(c.start.layout, s.h.cache, s.h.out, k);
    TakeWeights(s.h.out, k, w);
    AskedVerified(r.winState, w, Verified);
    forall v: nat | v < |states| ensures WindowOk(r.sink, r.winRecv, states, r.out, back, s.answered, s.h.cache, v) {
      assert WindowOk(r.sink, r.winRecv, r.winState, r.out, s.h.out, s.answered, s.h.cache, v);
      if v != w {
        OtherWindow(r.sink, r.winRecv, r.winState, r.out, s.h.out, s.answered, s.h.cache, k, w, v);
      }
    }
  }

  // ----- some do not

  function MinusSpan(l: Layout): nat -> int {
    (i: nat) => if l.chunk > 0 && i < l.Chunks() then -(l.Span(i) as int) else 0
  }

  lemma DistinctRest(bad: seq<nat>)
    requires bad != [] && Distinct(bad)
    ensures bad == [bad[0]] + bad[1..] && Distinct(bad[1..])
    ensures forall i: nat :: i in bad <==> i == bad[0] || i in bad[1..]
    ensures bad[0] !in bad[1..]
  {
  }

  /** What charging the chunks of bad to window w makes of r: each is charged one
      attempt, its window one chunk and the progress its bytes; or the first to
      exceed its attempts ends the run. */
  ghost predicate ChargedAll(r: Receiver, t: Receiver, w: nat, bad: seq<nat>)
    requires w < |r.winRecv|
  {
    if t.fault.None? then
      t.winRecv == r.winRecv[w := r.winRecv[w] - |bad|] &&
      t.progress == r.progress + ListSum(bad, MinusSpan(r.sink.layout)) &&
      (forall i: nat :: Tried(t.attempts, i) == Tried(r.attempts, i) + if i in bad then 1 else 0) &&
      (forall i: nat :: i in bad ==> Tried(t.attempts, i) <= MAX_ATTEMPTS)
    else t.fault.value.TooManyAttempts? && t.fault.value.chunk in bad &&
         Tried(r.attempts, t.fault.value.chunk) >= MAX_ATTEMPTS
  }

  /** r once its first rejected chunk i is charged. */
  function ChargedOne(r: Receiver, w: nat, i: nat): Receiver
    requires w < |r.winRecv| && r.sink.layout.chunk > 0 && i < r.sink.layout.Chunks()
  {
    r.(attempts := r.attempts[i := r.Attempts(i) + 1], progress := r.progress - r.sink.layout.Span(i),
       winRecv := r.winRecv[w := r.winRecv[w] - 1])
  }

  lemma ChargedFirst(r: Receiver, t: Receiver, w: nat, bad: seq<nat>)
    requires w < |r.winRecv| && r.sink.layout.chunk > 0 && bad != [] && bad[0] < r.sink.layout.Chunks()
    requires Distinct(bad) && r.Attempts(bad[0]) < MAX_ATTEMPTS
    requires ChargedAll(ChargedOne(r, w, bad[0]), t, w, bad[1..])
    ensures ChargedAll(r, t, w, bad)
  {
    hide Distinct;
    DistinctRest(bad);
  }

  lemma {:induction false} ChargeEffect(r: Receiver, w: nat, bad: seq<nat>)
    requires w < |r.winRecv| && r.fault.None? && r.sink.layout.chunk > 0
    requires Distinct(bad) && forall k :: 0 <= k < |bad| ==> bad[k] < r.sink.layout.Chunks()
    ensures ChargedAll(r, Charge(r, w, bad), w, bad)
    decreases |bad|
  {
    hide Sum;
    hide Total;
    if bad != [] && r.Attempts(bad[0]) < MAX_ATTEMPTS {
      hide ChargedAll;
      ChargeEffect(ChargedOne(r, w, bad[0]), w, bad[1..]);
      ChargedFirst(r, Charge(r, w, bad), w, bad);
    }
  }

  lemma {:induction false} DistinctWeight(bad: seq<nat>, i: nat)
    requires Distinct(bad)
    ensures Queued(bad, i) == if i in bad then 1 else 0
  {
    if bad != [] {
      DistinctWeight(bad[1..], i);
      assert bad == [bad[0]] + bad[1..];
      if i == bad[0] {
        assert i !in bad[1..];
      }
    }
  }

  /** What a rejection is about: bad lists, once each, the held chunks of window w
      whose recorded hash is not the host's. */
  ghost predicate Rejects(sink: Sink, cache: map<nat, Digest>, w: nat, bad: seq<nat>) {
    Shaped(sink) && bad != [] && Distinct(bad) && w < Windows(|sink.held|) &&
    (forall k :: 0 <= k < |bad| ==> bad[k] < |sink.held|) &&
    (forall i: nat :: i in bad ==>
       i < |sink.held| && i / HASH_WINDOW == w && sink.held[i] && i in cache && sink.hashes[i] != cache[i])
  }

  lemma BadRejects(sink: Sink, cache: map<nat, Digest>, w: nat, first: nat, count: nat)
    requires Shaped(sink) && w < Windows(|sink.held|)
    requires forall j: nat :: first <= j < first + count ==> j in cache && j / HASH_WINDOW == w
    requires Bad(sink, first, Flatten(CachedRange(cache, first, count))) != []
    ensures Rejects(sink, cache, w, Bad(sink, first, Flatten(CachedRange(cache, first, count))))
  {
    var hs := Flatten(CachedRange(cache, first, count));
    var bad := Bad(sink, first, hs);
    BadExact(sink, first, hs);
    forall i: nat | i in bad
      ensures i < |sink.held| && i / HASH_WINDOW == w && sink.held[i] && i in cache && sink.hashes[i] != cache[i]
    {
      MismatchIff(sink, cache, first, count, i);
    }
    assert forall k :: 0 <= k < |bad| ==> bad[k] in bad;
  }

  /** The sink once the rejected chunks are cleared. */
  function Rejected(sink: Sink, bad: seq<nat>): Sink {
    sink.(held := Cleared(sink.held, bad))
  }

  lemma RejectChunks(sink: Sink, queue: seq<nat>, out: seq<Frame>, back: seq<Frame>, partial: map<nat, Partial>,
                     start: Sink, attempts: map<nat, nat>, later: map<nat, nat>, served: seq<nat>,
                     cache: map<nat, Digest>, w: nat, bad: seq<nat>)
    requires Rejects(sink, cache, w, bad) && |start.held| == |served| == |sink.held|
    requires ChunksOk(sink, queue, out, back, partial) && TriesOk(start, queue, out, attempts, served)
    requires forall i: nat :: Tried(later, i) == Tried(attempts, i) + if i in bad then 1 else 0
    requires forall i: nat :: i in bad ==> Tried(later, i) <= MAX_ATTEMPTS
    ensures ChunksOk(Rejected(sink, bad), bad + queue, out, back, partial)
    ensures TriesOk(start, bad + queue, out, later, served)
  {
    forall i: nat | i < |sink.held|
      ensures ChunkOk(Rejected(sink, bad), bad + queue, out, back, partial, i)
      ensures TryOk(start, bad + queue, out, later, served, i)
    {
      assert ChunkOk(sink, queue, out, back, partial, i) && TryOk(start, queue, out, attempts, served, i);
      SumConcat<nat>(bad, queue, QueueWeight(i));
      DistinctWeight(bad, i);
    }
  }

  lemma RejectOrigins(start: Sink, sink: Sink, attempts: map<nat, nat>, later: map<nat, nat>,
                      cache: map<nat, Digest>, w: nat, bad: seq<nat>)
    requires Rejects(sink, cache, w, bad) && Shaped(start) && |start.held| == |sink.held|
    requires OriginsOk(start, sink, attempts, cache)
    requires forall i: nat :: Tried(later, i) == Tried(attempts, i) + if i in bad then 1 else 0
    ensures OriginsOk(start, Rejected(sink, bad), later, cache)
  {
    forall i: nat | i < |start.held| ensures OriginOk(start, Rejected(sink, bad), later, cache, i) {
      assert OriginOk(start, sink, attempts, cache, i);
    }
  }

  lemma RejectContents(sink: Sink, partial: map<nat, Partial>, back: seq<Frame>, served: seq<nat>,
                       wire: seq<seq<byte>>, bad: seq<nat>)
    requires Shaped(sink) && |sink.held| == |served| == |wire| && ContentsOk(sink, partial, back, served, wire)
    ensures ContentsOk(Rejected(sink, bad), partial, back, served, wire)
  {
    forall i: nat | i < |served| ensures ContentOk(Rejected(sink, bad), partial, back, served, wire, i) {
      assert ContentOk(sink, partial, back, served, wire, i);
    }
  }

  lemma RejectProgress(sink: Sink, progress: int, partial: map<nat, Partial>, cache: map<nat, Digest>, w: nat,
                       bad: seq<nat>)
    requires Rejects(sink, cache, w, bad) && ProgressOk(progress, sink, partial)
    ensures ProgressOk(progress + ListSum(bad, MinusSpan(sink.layout)), Rejected(sink, bad), partial)
  {
    var l := sink.layout;
    TotalList(|sink.held|, BytesAt(l, sink.held), BytesAt(l, Cleared(sink.held, bad)), bad, MinusSpan(l));
  }

  /** The window loses exactly the rejected chunks, the others none. */
  lemma RejectCounts(sink: Sink, cache: map<nat, Digest>, w: nat, bad: seq<nat>, v: nat)
    requires Rejects(sink, cache, w, bad)
    ensures HeldInWindow(Cleared(sink.held, bad), v) == HeldInWindow(sink.held, v) - if v == w then |bad| else 0
  {
    var minus := (i: nat) => if v == w then -1 else 0;
    ListSumConst(bad, minus, if v == w then -1 else 0);
    TotalList(|sink.held|, HeldIn(sink.held, v), HeldIn(Cleared(sink.held, bad), v), bad, minus);
  }

  lemma RejectWindows(sink: Sink, winRecv: seq<int>, winState: seq<WinState>, out: seq<Frame>, back: seq<Frame>,
                      answered: set<nat>, cache: map<nat, Digest>, k: nat, w: nat, f: Frame, bad: seq<nat>)
    requires AnswerArrives(sink, winRecv, winState, out, back, cache, k, w, f) && Rejects(sink, cache, w, bad)
    requires w in answered && WindowsOk(sink, winRecv, winState, out, back, answered, cache)
    ensures WindowsOk(Rejected(sink, bad), winRecv[w := winRecv[w] - |bad|], winState[w := Pending], out,
                      Without(back, k), answered, cache)
  {
    var fewer, states := winRecv[w := winRecv[w] - |bad|], winState[w := Pending];
    forall v: nat | v < |states|
      ensures WindowOk(Rejected(sink, bad), fewer, states, out, Without(back, k), answered, cache, v)
    {
      assert WindowOk(sink, winRecv, winState, out, back, answered, cache, v);
      RejectCounts(sink, cache, w, bad, v);
      if v != w {
        OtherWindow(sink, winRecv, winState, out, back, answered, cache, k, w, v);
        if states[v] == Verified {
          assert HashesAgree(Rejected(sink, bad), cache, v);
        }
      }
    }
  }
}
