/** Serving a REQ keeps the invariant: the chunks named go from asked for to
    arriving, each as one complete set of fragments. */
module StepServe {
  import opened Bytes
  import opened Sums
  import opened Wire
  import opened Layouts
  import opened Sinks
  import opened Receivers
  import opened Hosts
  import opened Network
  import opened Invariant
  import opened StepHost

  // ----- the frames of a chunk

  /** fs are the DATA frames of chunk j with bytes d from off on: they weigh what
      is left of d, and each carries its part of d. */
  lemma {:induction false} CarriesFacts(fs: seq<Frame>, j: uint32, d: seq<byte>, off: nat, i: nat)
    requires Carries(fs, j, 0, d, off) && |d| < MAX32
    ensures Flying(fs, i) == (if i == j then |d| - off else 0)
    ensures Sum(fs, ReplyWeight(i)) == 0 && Sum(fs, DoneWeight()) == 0
    ensures forall f :: f in fs ==> f.Data? && f.index == j && 0 < |f.payload| && CarriesChunk(f, j, d)
    decreases |fs|
  {
    if fs != [] {
      CarriesFacts(fs[1..], j, d, off + |fs[0].payload|, i);
    }
  }

  /** ... and they cover every byte that is left of d. */
  lemma {:induction false} CarriesCover(fs: seq<Frame>, j: uint32, d: seq<byte>, off: nat)
    requires Carries(fs, j, 0, d, off) && |d| < MAX32
    ensures forall b: nat :: off <= b < |d| ==> InTransit(fs, j, b)
    decreases |fs|
  {
    hide Sum;
    if fs != [] {
      var f := fs[0];
      CarriesCover(fs[1..], j, d, off + |f.payload|);
      forall b: nat | off <= b < |d| ensures InTransit(fs, j, b) {
        if b < off + |f.payload| {
          assert f in fs && CoversByte(f, j, b);
        } else {
          assert InTransit(fs[1..], j, b);
          var g :| g in fs[1..] && CoversByte(g, j, b);
          assert g in fs;
        }
      }
    }
  }

  /** Every byte of d is in a frame of one of two lists for chunk i. */
  lemma CoveredBySum(fs: seq<Frame>, gs: seq<Frame>, i: nat, n: nat)
    requires (forall b: nat :: b < n ==> InTransit(fs, i, b)) || (forall b: nat :: b < n ==> InTransit(gs, i, b))
    ensures forall b: nat :: b < n ==> InTransit(fs + gs, i, b)
  {
    forall b: nat | b < n ensures InTransit(fs + gs, i, b) {
      if InTransit(fs, i, b) {
        var g :| g in fs && CoversByte(g, i, b);
        assert g in fs + gs;
      } else {
        assert InTransit(gs, i, b);
        var g :| g in gs && CoversByte(g, i, b);
        assert g in fs + gs;
      }
    }
  }

  /** A frame of the range's own: non-empty, with the bytes of the chunk it names. */
  ghost predicate ServesRange(f: Frame, bytes: seq<seq<byte>>, first: nat, count: nat) {
    f.Data? && first <= f.index < first + count <= |bytes| && 0 < |f.payload| &&
    CarriesChunk(f, f.index, bytes[f.index])
  }

  /** The DATA frames of a range weigh exactly its chunks. */
  lemma {:induction false} DataFramesWeigh(l: Layout, bytes: seq<seq<byte>>, first: nat, count: nat, limit: nat, i: nat)
    requires FitsChunks(l, bytes) && first + count <= |bytes| < MAX32 && limit > DATA_HEADER
    ensures var fs := DataFrames(bytes, first, count, limit);
            Flying(fs, i) == (if first <= i < first + count then |bytes[i]| else 0) &&
            Sum(fs, ReplyWeight(i)) == 0 && Sum(fs, DoneWeight()) == 0
    decreases count
  {
    hide Split;
    hide Carries;
    if count > 0 {
      var fs := ChunkFrames(l, bytes, first, limit);
      CarriesFacts(fs, first, bytes[first], 0, i);
      DataFramesWeigh(l, bytes, first + 1, count - 1, limit, i);
      AddWeights(fs, DataFrames(bytes, first + 1, count - 1, limit), i);
    }
  }

  lemma ChunkFrames(l: Layout, bytes: seq<seq<byte>>, j: nat, limit: nat) returns (fs: seq<Frame>)
    requires FitsChunks(l, bytes) && j < |bytes| < MAX32 && limit > DATA_HEADER
    ensures fs == Split(Data(U32(j), 0, bytes[j]), limit) && U32(j) == j
    ensures Carries(fs, j, 0, bytes[j], 0) && |bytes[j]| < MAX32
  {
    fs := Split(Data(U32(j), 0, bytes[j]), limit);
    assert |bytes[j]| == l.Span(j);
    SplitCarries(Data(U32(j), 0, bytes[j]), limit);
  }

  /** The DATA frames of a range carry the bytes of the chunks they name. */
  lemma {:induction false} DataFramesServe(l: Layout, bytes: seq<seq<byte>>, first: nat, count: nat, limit: nat)
    requires FitsChunks(l, bytes) && first + count <= |bytes| < MAX32 && limit > DATA_HEADER
    ensures forall f :: f in DataFrames(bytes, first, count, limit) ==> ServesRange(f, bytes, first, count)
    decreases count
  {
    hide Split;
    hide Carries;
    if count > 0 {
      var fs := ChunkFrames(l, bytes, first, limit);
      var gs := DataFrames(bytes, first + 1, count - 1, limit);
      CarriesFacts(fs, first, bytes[first], 0, 0);
      DataFramesServe(l, bytes, first + 1, count - 1, limit);
      forall f | f in fs + gs ensures ServesRange(f, bytes, first, count) {
        assert f in gs ==> ServesRange(f, bytes, first + 1, count - 1);
      }
    }
  }

  /** Frame f comes before g: of an earlier chunk, or of the same one further in front. */
  ghost predicate Before(f: Frame, g: Frame) {
    f.Data? && g.Data? && (f.index < g.index || (f.index == g.index && f.offset < g.offset))
  }

  ghost predicate InOrder(fs: seq<Frame>) {
    forall a, b :: 0 <= a < b < |fs| ==> Before(fs[a], fs[b])
  }

  lemma {:induction false} CarriesInOrder(fs: seq<Frame>, j: uint32, d: seq<byte>, off: nat)
    requires Carries(fs, j, 0, d, off) && |d| < MAX32
    ensures InOrder(fs) && forall f :: f in fs ==> f.Data? && f.index == j && off <= f.offset
    decreases |fs|
  {
    if fs != [] {
      var f, rest := fs[0], fs[1..];
      CarriesInOrder(rest, j, d, off + |f.payload|);
      forall a, b | 0 <= a < b < |fs| ensures Before(fs[a], fs[b]) {
        assert fs[b] == rest[b - 1] && fs[b] in rest && (a > 0 ==> fs[a] == rest[a - 1]);
      }
    }
  }

  lemma JoinInOrder(fs: seq<Frame>, gs: seq<Frame>)
    requires InOrder(fs) && InOrder(gs) && forall f, g :: f in fs && g in gs ==> Before(f, g)
    ensures InOrder(fs + gs)
  {
  }

  /** A REQ is answered in the order of its range, each chunk from front to back. */
  lemma {:induction false} DataFramesInOrder(l: Layout, bytes: seq<seq<byte>>, first: nat, count: nat, limit: nat)
    requires FitsChunks(l, bytes) && first + count <= |bytes| < MAX32 && limit > DATA_HEADER
    ensures InOrder(DataFrames(bytes, first, count, limit))
    decreases count
  {
    hide Split;
    hide Carries;
    if count > 0 {
      var fs := ChunkFrames(l, bytes, first, limit);
      var gs := DataFrames(bytes, first + 1, count - 1, limit);
      CarriesInOrder(fs, first, bytes[first], 0);
      DataFramesInOrder(l, bytes, first + 1, count - 1, limit);
      DataFramesServe(l, bytes, first + 1, count - 1, limit);
      forall f, g | f in fs && g in gs ensures Before(f, g) {
        assert ServesRange(g, bytes, first + 1, count - 1);
      }
      JoinInOrder(fs, gs);
    }
  }

  /** The DATA frames of a range cover every byte of its chunks. */
  lemma {:induction false} DataFramesCover(l: Layout, bytes: seq<seq<byte>>, first: nat, count: nat, limit: nat, i: nat)
    requires FitsChunks(l, bytes) && first + count <= |bytes| < MAX32 && limit > DATA_HEADER
    requires first <= i < first + count
    ensures forall b: nat :: b < |bytes[i]| ==> InTransit(DataFrames(bytes, first, count, limit), i, b)
    decreases count
  {
    hide Split;
    hide Carries;
    var fs := ChunkFrames(l, bytes, first, limit);
    var gs := DataFrames(bytes, first + 1, count - 1, limit);
    if i == first {
      CarriesCover(fs, first, bytes[first], 0);
    } else {
      DataFramesCover(l, bytes, first + 1, count - 1, limit, i);
    }
    CoveredBySum(fs, gs, i, |bytes[i]|);
  }

  // ----- the pieces of the invariant

  /** The k-th frame towards the host asks for chunks first .. first + count - 1. */
  ghost predicate ReqTaken(out: seq<Frame>, k: nat, first: nat, count: nat, n: nat) {
    k < |out| && out[k].Req? && out[k].first == first && out[k].count == count > 0 && first + count <= n < MAX32
  }

  lemma ServedChunks(sink: Sink, queue: seq<nat>, out: seq<Frame>, back: seq<Frame>, more: seq<Frame>,
                     partial: map<nat, Partial>, k: nat, first: nat, count: nat)
    requires Shaped(sink) && ReqTaken(out, k, first, count, |sink.held|)
    requires forall i: nat :: i < |sink.held| ==>
               Flying(more, i) == if first <= i < first + count then sink.layout.Span(i) else 0
    requires ChunksOk(sink, queue, out, back, partial)
    ensures ChunksOk(sink, queue, Without(out, k), back + more, partial)
    ensures Total(|sink.held|, FlightAt(Without(out, k), back + more, partial))
            == Total(|sink.held|, FlightAt(out, back, partial))
  {
    var g, h := FlightAt(out, back, partial), FlightAt(Without(out, k), back + more, partial);
    forall i: nat | i < |sink.held|
      ensures ChunkOk(sink, queue, Without(out, k), back + more, partial, i) && g(i) == h(i)
    {
      assert ChunkOk(sink, queue, out, back, partial, i);
      TakeAsks(out, k, i);
      AddWeights(back, more, i);
    }
    TotalSame(|sink.held|, g, h);
  }

  lemma ServedTries(start: Sink, queue: seq<nat>, out: seq<Frame>, attempts: map<nat, nat>, served: seq<nat>,
                    k: nat, first: nat, count: nat)
    requires |start.held| == |served| && ReqTaken(out, k, first, count, |served|)
    requires TriesOk(start, queue, out, attempts, served)
    ensures TriesOk(start, queue, Without(out, k), attempts, Bump(served, first, count))
  {
    forall i: nat | i < |served|
      ensures TryOk(start, queue, Without(out, k), attempts, Bump(served, first, count), i)
    {
      assert TryOk(start, queue, out, attempts, served, i);
      TakeAsks(out, k, i);
    }
  }

  lemma NothingFlying(l: Layout, cache: map<nat, Digest>, back: seq<Frame>, i: nat)
    requires l.chunk > 0 && RepliesOk(l, cache, back) && Flying(back, i) == 0
    ensures forall g :: g in back ==> !(g.Data? && g.index == i)
  {
    forall j | 0 <= j < |back| ensures !(back[j].Data? && back[j].index == i) {
      SumMember(back, DataWeight(i), back[j]);
      assert ReplyOk(l, cache, back[j]);
    }
  }

  /** A chunk of the range had nothing in transit, so what is in transit now is all as served. */
  lemma FreshArriving(l: Layout, cache: map<nat, Digest>, partial: map<nat, Partial>, back: seq<Frame>,
                      more: seq<Frame>, d: seq<byte>, i: nat)
    requires l.chunk > 0 && RepliesOk(l, cache, back) && Flying(back, i) == 0
    requires forall f :: f in more && f.Data? && f.index == i ==> CarriesChunk(f, i, d)
    requires forall b: nat :: b < |d| ==> InTransit(more, i, b)
    ensures ArrivingOk(partial, back + more, d, i)
  {
    NothingFlying(l, cache, back, i);
    forall g | g in back + more ensures CarriesChunk(g, i, d) {
    }
    forall b: nat | b < |d| ensures InTransit(back + more, i, b) {
      assert InTransit(more, i, b);
      var g :| g in more && CoversByte(g, i, b);
      assert g in back + more;
    }
  }

  lemma ServedContents(sink: Sink, queue: seq<nat>, out: seq<Frame>, back: seq<Frame>, more: seq<Frame>,
                       partial: map<nat, Partial>, served: seq<nat>, wire: seq<seq<byte>>, bytes: seq<seq<byte>>,
                       cache: map<nat, Digest>, k: nat, first: nat, count: nat, limit: nat)
    requires Shaped(sink) && |sink.held| == |served| == |wire| && ReqTaken(out, k, first, count, |sink.held|)
    requires FitsChunks(sink.layout, bytes) && limit > DATA_HEADER && more == DataFrames(bytes, first, count, limit)
    requires ChunksOk(sink, queue, out, back, partial) && RepliesOk(sink.layout, cache, back)
    requires ContentsOk(sink, partial, back, served, wire)
    ensures ContentsOk(sink, partial, back + more, Bump(served, first, count), Overwrite(wire, bytes, first, count))
  {
    forall i: nat | i < |served|
      ensures ContentOk(sink, partial, back + more, Bump(served, first, count), Overwrite(wire, bytes, first, count), i)
    {
      assert ContentOk(sink, partial, back, served, wire, i) && ChunkOk(sink, queue, out, back, partial, i);
      DataFramesWeigh(sink.layout, bytes, first, count, limit, i);
      DataFramesServe(sink.layout, bytes, first, count, limit);
      assert forall f :: f in more ==> ServesRange(f, bytes, first, count);
      AddWeights(back, more, i);
      TakeAsks(out, k, i);
      if first <= i < first + count {
        DataFramesCover(sink.layout, bytes, first, count, limit, i);
        FreshArriving(sink.layout, cache, partial, back, more, bytes[i], i);
      } else if Flying(back, i) + Have(partial, i) > 0 {
        AddedArriving(partial, back, more, wire[i], i);
      }
    }
  }

  lemma ServedWindows(sink: Sink, winRecv: seq<int>, winState: seq<WinState>, out: seq<Frame>, back: seq<Frame>,
                      more: seq<Frame>, answered: set<nat>, cache: map<nat, Digest>, k: nat)
    requires Shaped(sink) && |winState| == |winRecv| && k < |out| && out[k].Req?
    requires forall w: nat :: w < |winState| ==> Sum(more, ReplyWeight(w)) == 0
    requires WindowsOk(sink, winRecv, winState, out, back, answered, cache)
    ensures WindowsOk(sink, winRecv, winState, Without(out, k), back + more, answered, cache)
  {
    forall w: nat | w < |winState|
      ensures WindowOk(sink, winRecv, winState, Without(out, k), back + more, answered, cache, w)
    {
      assert WindowOk(sink, winRecv, winState, out, back, answered, cache, w);
      TakeAsks(out, k, w);
      AddWeights(back, more, w);
    }
  }

  lemma ServedReplies(l: Layout, cache: map<nat, Digest>, back: seq<Frame>, bytes: seq<seq<byte>>,
                      first: nat, count: nat, limit: nat)
    requires FitsChunks(l, bytes) && first + count <= |bytes| < MAX32 && limit > DATA_HEADER
    requires RepliesOk(l, cache, back)
    ensures RepliesOk(l, cache, back + DataFrames(bytes, first, count, limit))
  {
    var more := DataFrames(bytes, first, count, limit);
    DataFramesServe(l, bytes, first, count, limit);
    forall k | 0 <= k < |back + more| ensures ReplyOk(l, cache, (back + more)[k]) {
      if k >= |back| {
        assert more[k - |back|] in more;
        assert ServesRange(more[k - |back|], bytes, first, count);
      }
    }
  }

  // ----- the step

  /** The host serves a REQ; hashes it learned on the way apart. */
  lemma ReqKernel(c: Setup, s: Net, k: nat, bytes: seq<seq<byte>>, first: nat, count: nat)
    requires Kernel(c, s) && ReqTaken(s.r.out, k, first, count, s.r.Chunks()) && FitsChunks(c.start.layout, bytes)
    ensures Kernel(c, s.(r := s.r.(out := Without(s.r.out, k)),
                         h := s.h.(out := s.h.out + DataFrames(bytes, first, count, c.limit),
                                   lastRequested := s.h.lastRequested || first + count == s.r.Chunks()),
                         served := Bump(s.served, first, count), wire := Overwrite(s.wire, bytes, first, count)))
  {
    hide Sum;
    hide Total;
    hide DataFrames;
    hide LastOk;
    hide ChunksOk;
    hide TriesOk;
    hide ContentsOk;
    hide OriginsOk;
    hide WindowsOk;
    hide RepliesOk;
    hide AsksOk;
    var r, n := s.r, s.r.Chunks();
    var more := DataFrames(bytes, first, count, c.limit);
    forall i: nat
      ensures i < n ==> Flying(more, i) == if first <= i < first + count then c.start.layout.Span(i) else 0
      ensures Sum(more, ReplyWeight(i)) == 0 && Sum(more, DoneWeight()) == 0
    {
      DataFramesWeigh(c.start.layout, bytes, first, count, c.limit, i);
    }
    ServedChunks(r.sink, r.queue, r.out, s.h.out, more, r.partial, k, first, count);
    ServedTries(c.start, r.queue, r.out, r.attempts, s.served, k, first, count);
    ServedContents(r.sink, r.queue, r.out, s.h.out, more, r.partial, s.served, s.wire, bytes, s.h.cache,
                   k, first, count, c.limit);
    ServedWindows(r.sink, r.winRecv, r.winState, r.out, s.h.out, more, s.answered, s.h.cache, k);
    ServedReplies(c.start.layout, s.h.cache, s.h.out, bytes, first, count, c.limit);
    ServedLast(s.h.lastRequested, s.h.doneSent, s.served, first, count);
    AddWeights(s.h.out, more, 0);
    TakeAsksOk(n, r.out, k);
  }

  lemma ServedLast(lastRequested: bool, doneSent: bool, served: seq<nat>, first: nat, count: nat)
    requires LastOk(lastRequested, doneSent, served) && first + count <= |served| && count > 0
    ensures LastOk(lastRequested || first + count == |served|, doneSent, Bump(served, first, count))
  {
  }

  /** The hashes the host knows once it has answered f. */
  function Learned(s: Net, f: Frame, bytes: seq<seq<byte>>): map<nat, Digest>
    requires f.Req? || f.HashReq?
  {
    if f.first + f.count <= |bytes| then LearnRange(s.h.cache, bytes, f.first, f.count) else s.h.cache
  }

  lemma LearnedGrows(s: Net, f: Frame, bytes: seq<seq<byte>>)
    requires (f.Req? || f.HashReq?) && f.first + f.count <= |bytes|
    ensures var later := Learned(s, f, bytes);
            Grows(s.h.cache, later) && (forall i: nat :: f.first <= i < f.first + f.count ==> i in later) &&
            forall i: nat :: i in later && i !in s.h.cache ==> i < |bytes| && later[i] == Sha256(bytes[i])
  {
    LearnRangeKnows(s.h.cache, bytes, f.first, f.count);
  }

  /** What the host makes of a REQ the receiver may have sent. */
  lemma AnswersReq(c: Setup, s: Net, k: nat, bytes: seq<seq<byte>>)
    requires ValidSetup(c) && k < |s.r.out| && |bytes| == |s.wire|
    requires var f := s.r.out[k]; f.Req? && ReqTaken(s.r.out, k, f.first, f.count, |bytes|)
    ensures var f := s.r.out[k];
            HostAnswers(c, s, k, bytes) ==
            s.(r := s.r.(out := Without(s.r.out, k)),
               h := s.h.(cache := Learned(s, f, bytes),
                         out := s.h.out + DataFrames(bytes, f.first, f.count, c.limit),
                         lastRequested := s.h.lastRequested || f.first + f.count == |bytes|),
               served := Bump(s.served, f.first, f.count), wire := Overwrite(s.wire, bytes, f.first, f.count))
  {
    hide DataFrames;
    hide LearnRange;
    TurnsInRange(s.r.out[k].first, s.r.out[k].count);
  }

  /** The host's answer to a HASH-REQ. */
  function AnswerTo(later: map<nat, Digest>, f: Frame): Frame
    requires f.HashReq? && forall i: nat :: f.first <= i < f.first + f.count ==> i in later
  {
    Hash(f.first, f.count, Flatten(CachedRange(later, f.first, f.count)))
  }

  /** What the host makes of a HASH-REQ the receiver may have sent. */
  lemma AnswersHashReq(c: Setup, s: Net, k: nat, bytes: seq<seq<byte>>)
    requires ValidSetup(c) && k < |s.r.out| && |bytes| == |s.wire| == |c.start.held|
    requires var f := s.r.out[k]; f.HashReq? && AskOk(|bytes|, f)
    ensures var f := s.r.out[k];
            f.first + f.count <= |bytes| &&
            var later := Learned(s, f, bytes);
            (forall i: nat :: f.first <= i < f.first + f.count ==> i in later) &&
            ReplyOk(c.start.layout, later, AnswerTo(later, f)) &&
            HostAnswers(c, s, k, bytes) ==
            s.(r := s.r.(out := Without(s.r.out, k)),
               h := s.h.(cache := later, out := s.h.out + [AnswerTo(later, f)]),
               answered := s.answered + {f.first / HASH_WINDOW})
  {
    hide LearnRange;
    var f := s.r.out[k];
    LearnedGrows(s, f, bytes);
  }

  /** One whole turn of serve keeps the invariant. */
  lemma HostStep(c: Setup, s: Net, k: nat, bytes: seq<seq<byte>>)
    requires Inv(c, s) && k < |s.r.out| && FitsChunks(c.start.layout, bytes)
    ensures Inv(c, Next(c, s, HostTakes(k, bytes)))
  {
    hide Answer;
    hide Learned;
    var f, n := s.r.out[k], s.r.Chunks();
    assert AskOk(n, f);
    LearnedGrows(s, f, bytes);
    GrowCache(c, s, Learned(s, f, bytes));
    var u := s.(h := s.h.(cache := Learned(s, f, bytes)));
    if f.Req? {
      AnswersReq(c, s, k, bytes);
      ReqKernel(c, u, k, bytes, f.first, f.count);
    } else {
      AnswersHashReq(c, s, k, bytes);
      HashReqKernel(c, u, k, AnswerTo(u.h.cache, f));
    }
    MaybeDoneKeeps(c, HostAnswers(c, s, k, bytes));
  }
}
