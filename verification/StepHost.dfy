/** Every step of the host keeps the invariant. */
module StepHost {
  import opened Bytes
  import opened Sums
  import opened Wire
  import opened Layouts
  import opened Sinks
  import opened Receivers
  import opened Hosts
  import opened Network
  import opened Invariant
  import opened WindowFacts

  // ----- the cache only grows

  ghost predicate Grows(cache: map<nat, Digest>, later: map<nat, Digest>) {
    forall i: nat :: i in cache ==> i in later && later[i] == cache[i]
  }

  lemma GrownRange(cache: map<nat, Digest>, later: map<nat, Digest>, first: nat, count: nat)
    requires Grows(cache, later) && forall i: nat :: first <= i < first + count ==> i in cache
    ensures CachedRange(later, first, count) == CachedRange(cache, first, count)
  {
    var a, b := CachedRange(cache, first, count), CachedRange(later, first, count);
    forall k: nat | k < count ensures a[k] == b[k] {
      assert first <= first + k < first + count;
    }
  }

  lemma GrownReplies(l: Layout, cache: map<nat, Digest>, later: map<nat, Digest>, back: seq<Frame>)
    requires l.chunk > 0 && Grows(cache, later) && RepliesOk(l, cache, back)
    ensures RepliesOk(l, later, back)
  {
    forall k | 0 <= k < |back| ensures ReplyOk(l, later, back[k]) {
      assert ReplyOk(l, cache, back[k]);
      match back[k]
      case Hash(first, count, hs) => GrownRange(cache, later, first, count);
      case Done(root) => GrownRange(cache, later, 0, l.Chunks());
      case _ =>
    }
  }

  lemma GrownWindows(sink: Sink, winRecv: seq<int>, winState: seq<WinState>, out: seq<Frame>, back: seq<Frame>,
                     answered: set<nat>, cache: map<nat, Digest>, later: map<nat, Digest>)
    requires Shaped(sink) && |winState| == |winRecv| && Grows(cache, later)
    requires WindowsOk(sink, winRecv, winState, out, back, answered, cache)
    ensures WindowsOk(sink, winRecv, winState, out, back, answered, later)
  {
    forall w: nat | w < |winState| ensures WindowOk(sink, winRecv, winState, out, back, answered, later, w) {
      assert WindowOk(sink, winRecv, winState, out, back, answered, cache, w);
      if winState[w] == Verified {
        assert HashesAgree(sink, cache, w);
      }
    }
  }

  lemma GrownOrigins(start: Sink, sink: Sink, attempts: map<nat, nat>, cache: map<nat, Digest>, later: map<nat, Digest>)
    requires Shaped(start) && Shaped(sink) && |start.held| == |sink.held| && Grows(cache, later)
    requires OriginsOk(start, sink, attempts, cache)
    ensures OriginsOk(start, sink, attempts, later)
  {
    forall i: nat | i < |start.held| ensures OriginOk(start, sink, attempts, later, i) {
      assert OriginOk(start, sink, attempts, cache, i);
    }
  }

  lemma GrownDone(n: nat, root: Option<seq<byte>>, doneSent: bool, cache: map<nat, Digest>, later: map<nat, Digest>,
                  back: seq<Frame>)
    requires Grows(cache, later) && DoneOk(n, root, doneSent, cache, back)
    ensures DoneOk(n, root, doneSent, later, back)
  {
    if root.Some? {
      GrownRange(cache, later, 0, n);
    }
  }

  /** The state with the host knowing more hashes. */
  lemma GrowCache(c: Setup, s: Net, later: map<nat, Digest>)
    requires Kernel(c, s) && Grows(s.h.cache, later)
    ensures Kernel(c, s.(h := s.h.(cache := later)))
  {
    var r := s.r;
    GrownReplies(c.start.layout, s.h.cache, later, s.h.out);
    GrownWindows(r.sink, r.winRecv, r.winState, r.out, s.h.out, s.answered, s.h.cache, later);
    GrownOrigins(c.start, r.sink, r.attempts, s.h.cache, later);
    GrownDone(r.Chunks(), r.root, s.h.doneSent, s.h.cache, later, s.h.out);
  }

  // ----- a frame without data sent to the receiver

  lemma AddWeights(back: seq<Frame>, more: seq<Frame>, j: nat)
    ensures Flying(back + more, j) == Flying(back, j) + Flying(more, j)
    ensures Sum(back + more, ReplyWeight(j)) == Sum(back, ReplyWeight(j)) + Sum(more, ReplyWeight(j))
    ensures Sum(back + more, DoneWeight()) == Sum(back, DoneWeight()) + Sum(more, DoneWeight())
  {
    SumConcat(back, more, DataWeight(j));
    SumConcat(back, more, ReplyWeight(j));
    SumConcat(back, more, DoneWeight());
  }

  lemma AddOneWeights(back: seq<Frame>, f: Frame, j: nat)
    ensures Flying(back + [f], j) == Flying(back, j) + DataWeight(j)(f)
    ensures Sum(back + [f], ReplyWeight(j)) == Sum(back, ReplyWeight(j)) + ReplyWeight(j)(f)
    ensures Sum(back + [f], DoneWeight()) == Sum(back, DoneWeight()) + DoneWeight()(f)
  {
    SumAppend(back, f, DataWeight(j));
    SumAppend(back, f, ReplyWeight(j));
    SumAppend(back, f, DoneWeight());
  }

  /** More frames in transit, none of them with data of chunk i. */
  lemma AddedArriving(partial: map<nat, Partial>, back: seq<Frame>, more: seq<Frame>, d: seq<byte>, i: nat)
    requires ArrivingOk(partial, back, d, i) && forall f :: f in more ==> !(f.Data? && f.index == i)
    ensures ArrivingOk(partial, back + more, d, i)
  {
    forall g | g in back + more ensures CarriesChunk(g, i, d) {
    }
    forall b: nat | b < |d| && InTransit(back, i, b) ensures InTransit(back + more, i, b) {
      var g :| g in back && CoversByte(g, i, b);
      assert g in back + more;
    }
  }

  lemma AddChunks(sink: Sink, queue: seq<nat>, out: seq<Frame>, back: seq<Frame>, partial: map<nat, Partial>,
                  served: seq<nat>, wire: seq<seq<byte>>, f: Frame)
    requires Shaped(sink) && !f.Data? && |sink.held| == |served| == |wire|
    requires ChunksOk(sink, queue, out, back, partial) && ContentsOk(sink, partial, back, served, wire)
    ensures ChunksOk(sink, queue, out, back + [f], partial)
    ensures ContentsOk(sink, partial, back + [f], served, wire)
    ensures Total(|sink.held|, FlightAt(out, back + [f], partial)) == Total(|sink.held|, FlightAt(out, back, partial))
  {
    forall i: nat | i < |sink.held|
      ensures ChunkOk(sink, queue, out, back + [f], partial, i)
      ensures ContentOk(sink, partial, back + [f], served, wire, i)
      ensures Flying(back + [f], i) == Flying(back, i)
    {
      assert ChunkOk(sink, queue, out, back, partial, i) && ContentOk(sink, partial, back, served, wire, i);
      AddOneWeights(back, f, i);
      if Flying(back, i) + Have(partial, i) > 0 {
        AddedArriving(partial, back, [f], wire[i], i);
      }
    }
    TotalSame(|sink.held|, FlightAt(out, back + [f], partial), FlightAt(out, back, partial));
  }

  // ----- DONE

  /** Looking whether to send DONE keeps the invariant, and leaves DONE sent if it was due. */
  lemma MaybeDoneKeeps(c: Setup, s: Net)
    requires Kernel(c, s)
    ensures var t := s.(h := MaybeDone(s.h, s.r.Chunks())); Core(c, t) && HostOk(t)
  {
    var r, n := s.r, s.r.Chunks();
    if !s.h.doneSent && (s.h.lastRequested || n == 0) && AllKnown(s.h.cache, n) {
      var f := Done(RootOf(s.h.cache, n));
      AddChunks(r.sink, r.queue, r.out, s.h.out, r.partial, s.served, s.wire, f);
      AddOneWeights(s.h.out, f, 0);
      assert ReplyOk(c.start.layout, s.h.cache, f);
      forall w: nat | w < |r.winState|
        ensures WindowOk(r.sink, r.winRecv, r.winState, r.out, s.h.out + [f], s.answered, s.h.cache, w)
      {
        assert WindowOk(r.sink, r.winRecv, r.winState, r.out, s.h.out, s.answered, s.h.cache, w);
        AddOneWeights(s.h.out, f, w);
      }
    } else if s.h.lastRequested && forall w: nat :: w < |r.winState| ==> w in s.answered {
      forall i: nat | i < n ensures i in s.h.cache {
        WindowOfChunk(n, i);
      }
    }
  }

  // ----- HASH-REQ

  lemma TakeAsks(out: seq<Frame>, k: nat, j: nat)
    requires k < |out|
    ensures Requested(out, j) == ReqWeight(j)(out[k]) + Requested(Without(out, k), j)
    ensures Sum(out, AskWeight(j)) == AskWeight(j)(out[k]) + Sum(Without(out, k), AskWeight(j))
  {
    SumWithout(out, k, ReqWeight(j));
    SumWithout(out, k, AskWeight(j));
  }

  lemma TakeAsksOk(n: nat, out: seq<Frame>, k: nat)
    requires k < |out| && AsksOk(n, out)
    ensures AsksOk(n, Without(out, k))
  {
    forall j | 0 <= j < |Without(out, k)| ensures AskOk(n, Without(out, k)[j]) {
      assert Without(out, k)[j] == if j < k then out[j] else out[j + 1];
    }
  }

  /** Taking a hash request does not concern chunks. */
  lemma AskTakenChunks(sink: Sink, queue: seq<nat>, out: seq<Frame>, back: seq<Frame>, partial: map<nat, Partial>,
                       start: Sink, attempts: map<nat, nat>, served: seq<nat>, k: nat)
    requires Shaped(sink) && |start.held| == |served| == |sink.held| && k < |out| && out[k].HashReq?
    requires ChunksOk(sink, queue, out, back, partial) && TriesOk(start, queue, out, attempts, served)
    ensures ChunksOk(sink, queue, Without(out, k), back, partial)
    ensures TriesOk(start, queue, Without(out, k), attempts, served)
    ensures Total(|sink.held|, FlightAt(Without(out, k), back, partial))
            == Total(|sink.held|, FlightAt(out, back, partial))
  {
    forall i: nat | i < |sink.held|
      ensures ChunkOk(sink, queue, Without(out, k), back, partial, i)
      ensures TryOk(start, queue, Without(out, k), attempts, served, i)
      ensures Requested(Without(out, k), i) == Requested(out, i)
    {
      assert ChunkOk(sink, queue, out, back, partial, i) && TryOk(start, queue, out, attempts, served, i);
      TakeAsks(out, k, i);
    }
    TotalSame(|sink.held|, FlightAt(Without(out, k), back, partial), FlightAt(out, back, partial));
  }

  /** The request for window w becomes the answer for window w. */
  lemma AskAnsweredWindows(sink: Sink, winRecv: seq<int>, winState: seq<WinState>, out: seq<Frame>, back: seq<Frame>,
                           answered: set<nat>, cache: map<nat, Digest>, k: nat, w: nat, g: Frame)
    requires Shaped(sink) && |winState| == |winRecv| && k < |out|
    requires out[k].HashReq? && g.Hash? && g.first == out[k].first == w * HASH_WINDOW
    requires WindowsOk(sink, winRecv, winState, out, back, answered, cache)
    ensures WindowsOk(sink, winRecv, winState, Without(out, k), back + [g], answered + {w}, cache)
  {
    forall v: nat | v < |winState|
      ensures WindowOk(sink, winRecv, winState, Without(out, k), back + [g], answered + {w}, cache, v)
    {
      assert WindowOk(sink, winRecv, winState, out, back, answered, cache, v);
      TakeAsks(out, k, v);
      AddOneWeights(back, g, v);
    }
  }

  /** The host answers a hash request; hashes it learned on the way apart. */
  lemma HashReqKernel(c: Setup, s: Net, k: nat, g: Frame)
    requires Kernel(c, s) && k < |s.r.out| && s.r.out[k].HashReq?
    requires var f := s.r.out[k];
             g.Hash? && g.first == f.first && g.count == f.count && ReplyOk(c.start.layout, s.h.cache, g)
    ensures Kernel(c, s.(r := s.r.(out := Without(s.r.out, k)), h := s.h.(out := s.h.out + [g]),
                         answered := s.answered + {s.r.out[k].first / HASH_WINDOW}))
  {
    var r, f, n := s.r, s.r.out[k], s.r.Chunks();
    var w := f.first / HASH_WINDOW;
    assert AskOk(n, f);
    AddOneWeights(s.h.out, g, 0);
    AskTakenChunks(r.sink, r.queue, r.out, s.h.out, r.partial, c.start, r.attempts, s.served, k);
    AddChunks(r.sink, r.queue, Without(r.out, k), s.h.out, r.partial, s.served, s.wire, g);
    AskAnsweredWindows(r.sink, r.winRecv, r.winState, r.out, s.h.out, s.answered, s.h.cache, k, w, g);
    TakeAsksOk(n, r.out, k);
    AnswerKnows(n, s.answered, s.h.cache, f.first, f.count);
  }

  lemma AnswerKnows(n: nat, answered: set<nat>, cache: map<nat, Digest>, first: nat, count: nat)
    requires AnsweredOk(n, answered, cache) && WindowRange(n, first, count)
    requires forall i: nat :: first <= i < first + count ==> i in cache
    ensures AnsweredOk(n, answered + {first / HASH_WINDOW}, cache)
  {
    forall i: nat | i < n && i / HASH_WINDOW in answered + {first / HASH_WINDOW} ensures i in cache {
      if i / HASH_WINDOW == first / HASH_WINDOW {
        assert first <= i < first + count;
      }
    }
  }
}
