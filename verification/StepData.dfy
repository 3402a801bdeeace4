/** Taking a DATA frame keeps the invariant: bytes move from transit to the
    buffer, and a chunk whose last byte arrives moves from there to the disk. */
module StepData {
  import opened Bytes
  import opened Sums
  import opened Wire
  import opened Layouts
  import opened Store
  import opened Sinks
  import opened Receivers
  import opened Network
  import opened Invariant

  lemma TakeWeights(back: seq<Frame>, k: nat, j: nat)
    requires k < |back|
    ensures Flying(back, j) == DataWeight(j)(back[k]) + Flying(Without(back, k), j)
    ensures Sum(back, ReplyWeight(j)) == ReplyWeight(j)(back[k]) + Sum(Without(back, k), ReplyWeight(j))
    ensures Sum(back, DoneWeight()) == DoneWeight()(back[k]) + Sum(Without(back, k), DoneWeight())
  {
    SumWithout(back, k, DataWeight(j));
    SumWithout(back, k, ReplyWeight(j));
    SumWithout(back, k, DoneWeight());
  }

  lemma TakeReplies(l: Layout, cache: map<nat, Digest>, back: seq<Frame>, k: nat)
    requires l.chunk > 0 && k < |back| && RepliesOk(l, cache, back)
    ensures ReplyOk(l, cache, back[k]) && RepliesOk(l, cache, Without(back, k))
  {
    forall j | 0 <= j < |Without(back, k)| ensures ReplyOk(l, cache, Without(back, k)[j]) {
      assert Without(back, k)[j] == if j < k then back[j] else back[j + 1];
    }
  }

  /** The k-th frame in transit is f, a DATA frame that fits chunk i, and chunk i
      is arriving, so not held, and f's bytes are among those it waits for. */
  ghost predicate Arrives(sink: Sink, back: seq<Frame>, partial: map<nat, Partial>, k: nat, i: nat, f: Frame) {
    Shaped(sink) && k < |back| && back[k] == f && f.Data? && f.index == i < |sink.held| && 0 < |f.payload| &&
    !sink.held[i] && Flying(back, i) + Have(partial, i) == sink.layout.Span(i) &&
    f.offset + |f.payload| <= sink.layout.Span(i) &&
    (i in partial ==> |partial[i].buf| == sink.layout.Span(i))
  }

  lemma DataArrives(c: Setup, s: Net, k: nat)
    requires Core(c, s) && k < |s.h.out| && s.h.out[k].Data?
    ensures var f := s.h.out[k]; Arrives(s.r.sink, s.h.out, s.r.partial, k, f.index, f)
  {
    var f := s.h.out[k];
    assert ReplyOk(c.start.layout, s.h.cache, f);
    assert ChunkOk(s.r.sink, s.r.queue, s.r.out, s.h.out, s.r.partial, f.index);
    TakeWeights(s.h.out, k, f.index);
  }

  /** The buffer of chunk i once f is copied into it. */
  function NewBuf(sink: Sink, partial: map<nat, Partial>, i: nat, f: Frame): seq<byte>
    requires f.Data? && sink.layout.chunk > 0 && i < sink.layout.Chunks()
    requires f.offset + |f.payload| <= sink.layout.Span(i)
    requires i in partial ==> |partial[i].buf| == sink.layout.Span(i)
  {
    var span := sink.layout.Span(i);
    Splice(if i in partial then partial[i].buf else seq(span, _ => 0), f.offset, f.payload)
  }

  // ----- more of the chunk to come

  /** The partial chunks after f is buffered. */
  function Buffered(sink: Sink, partial: map<nat, Partial>, i: nat, f: Frame): map<nat, Partial>
    requires f.Data? && sink.layout.chunk > 0 && i < sink.layout.Chunks()
    requires f.offset + |f.payload| <= sink.layout.Span(i)
    requires i in partial ==> |partial[i].buf| == sink.layout.Span(i)
  {
    partial[i := Partial(NewBuf(sink, partial, i, f), Have(partial, i) + |f.payload|)]
  }

  lemma BufferChunks(sink: Sink, queue: seq<nat>, out: seq<Frame>, back: seq<Frame>, partial: map<nat, Partial>,
                     k: nat, i: nat, f: Frame)
    requires Arrives(sink, back, partial, k, i, f) && Have(partial, i) + |f.payload| < sink.layout.Span(i)
    requires ChunksOk(sink, queue, out, back, partial)
    ensures ChunksOk(sink, queue, out, Without(back, k), Buffered(sink, partial, i, f))
    ensures Total(|sink.held|, FlightAt(out, back, partial))
            == Total(|sink.held|, FlightAt(out, Without(back, k), Buffered(sink, partial, i, f)))
  {
    var later := Buffered(sink, partial, i, f);
    forall j: nat | j < |sink.held|
      ensures ChunkOk(sink, queue, out, Without(back, k), later, j)
      ensures Flying(back, j) + Have(partial, j) == Flying(Without(back, k), j) + Have(later, j)
    {
      assert ChunkOk(sink, queue, out, back, partial, j);
      TakeWeights(back, k, j);
    }
    TotalSame(|sink.held|, FlightAt(out, back, partial), FlightAt(out, Without(back, k), later));
  }

  /** Of the bytes of chunk i, those f carries are right in the new buffer and the others as before. */
  lemma BufferArriving(sink: Sink, partial: map<nat, Partial>, back: seq<Frame>, d: seq<byte>, k: nat, i: nat, f: Frame)
    requires Arrives(sink, back, partial, k, i, f) && |d| == sink.layout.Span(i)
    requires ArrivingOk(partial, back, d, i)
    ensures var buf := NewBuf(sink, partial, i, f);
            (forall g :: g in Without(back, k) ==> CarriesChunk(g, i, d)) &&
            forall b: nat :: b < |d| ==> InTransit(Without(back, k), i, b) || buf[b] == d[b]
  {
    var buf := NewBuf(sink, partial, i, f);
    forall g | g in Without(back, k) ensures CarriesChunk(g, i, d) {
      WithoutMember(back, k, g);
    }
    assert CarriesChunk(f, i, d);
    forall b: nat | b < |d| ensures InTransit(Without(back, k), i, b) || buf[b] == d[b] {
      if CoversByte(f, i, b) {
        assert buf[b] == f.payload[b - f.offset] == d[b];
      } else if InTransit(back, i, b) {
        var g :| g in back && CoversByte(g, i, b);
        WithoutMember(back, k, g);
      }
    }
  }

  lemma OtherArriving(partial: map<nat, Partial>, later: map<nat, Partial>, back: seq<Frame>, d: seq<byte>,
                      k: nat, j: nat)
    requires k < |back| && back[k].Data? && back[k].index != j && ArrivingOk(partial, back, d, j)
    requires (j in partial <==> j in later) && (j in partial ==> partial[j] == later[j])
    ensures ArrivingOk(later, Without(back, k), d, j)
  {
    forall g | g in Without(back, k) ensures CarriesChunk(g, j, d) {
      WithoutMember(back, k, g);
    }
    forall b: nat | b < |d| && InTransit(back, j, b) ensures InTransit(Without(back, k), j, b) {
      var g :| g in back && CoversByte(g, j, b);
      WithoutMember(back, k, g);
    }
  }

  lemma BufferContents(sink: Sink, partial: map<nat, Partial>, back: seq<Frame>, served: seq<nat>, wire: seq<seq<byte>>,
                       k: nat, i: nat, f: Frame)
    requires Arrives(sink, back, partial, k, i, f) && |sink.held| == |served| == |wire|
    requires ContentsOk(sink, partial, back, served, wire)
    ensures ContentsOk(sink, Buffered(sink, partial, i, f), Without(back, k), served, wire)
  {
    var later := Buffered(sink, partial, i, f);
    forall j: nat | j < |served| ensures ContentOk(sink, later, Without(back, k), served, wire, j) {
      assert ContentOk(sink, partial, back, served, wire, j);
      TakeWeights(back, k, j);
      if j == i {
        BufferArriving(sink, partial, back, wire[i], k, i, f);
      } else if Flying(Without(back, k), j) + Have(later, j) > 0 {
        OtherArriving(partial, later, back, wire[j], k, j);
      }
    }
  }

  lemma BufferProgress(sink: Sink, progress: int, partial: map<nat, Partial>, i: nat, f: Frame)
    requires f.Data? && Shaped(sink) && i < |sink.held| && f.offset + |f.payload| <= sink.layout.Span(i)
    requires i in partial ==> |partial[i].buf| == sink.layout.Span(i)
    requires ProgressOk(progress, sink, partial)
    ensures ProgressOk(progress + |f.payload|, sink, Buffered(sink, partial, i, f))
  {
    TotalChange(|sink.held|, HaveAt(partial), HaveAt(Buffered(sink, partial, i, f)), i);
  }

  /** Windows do not notice frames of other kinds being taken. */
  lemma TakeWindows(sink: Sink, winRecv: seq<int>, winState: seq<WinState>, out: seq<Frame>, back: seq<Frame>,
                    answered: set<nat>, cache: map<nat, Digest>, k: nat)
    requires Shaped(sink) && |winState| == |winRecv| && k < |back| && !back[k].Hash?
    requires WindowsOk(sink, winRecv, winState, out, back, answered, cache)
    ensures WindowsOk(sink, winRecv, winState, out, Without(back, k), answered, cache)
  {
    forall w: nat | w < |winState|
      ensures WindowOk(sink, winRecv, winState, out, Without(back, k), answered, cache, w)
    {
      assert WindowOk(sink, winRecv, winState, out, back, answered, cache, w);
      TakeWeights(back, k, w);
    }
  }

  // ----- the chunk complete

  /** The sink with chunk i written. */
  lemma CompleteChunks(sink: Sink, queue: seq<nat>, out: seq<Frame>, back: seq<Frame>, partial: map<nat, Partial>,
                       k: nat, i: nat, f: Frame, d: seq<byte>)
    requires Arrives(sink, back, partial, k, i, f) && Have(partial, i) + |f.payload| >= sink.layout.Span(i)
    requires |d| == sink.layout.Span(i) && ChunksOk(sink, queue, out, back, partial)
    ensures Shaped(Write(sink, i, d)) && ChunksOk(Write(sink, i, d), queue, out, Without(back, k), partial - {i})
    ensures Flying(Without(back, k), i) == 0
    ensures Total(|sink.held|, FlightAt(out, Without(back, k), partial - {i}))
            == Total(|sink.held|, FlightAt(out, back, partial)) - 1
  {
    var g, h := FlightAt(out, back, partial), FlightAt(out, Without(back, k), partial - {i});
    WriteKeeps(sink, i, d);
    forall j: nat | j < |sink.held|
      ensures ChunkOk(Write(sink, i, d), queue, out, Without(back, k), partial - {i}, j)
      ensures h(j) == g(j) - if j == i then 1 else 0
    {
      assert ChunkOk(sink, queue, out, back, partial, j);
      TakeWeights(back, k, j);
    }
    TakeWeights(back, k, i);
    TotalChange(|sink.held|, g, h, i);
  }

  lemma CompleteContents(sink: Sink, partial: map<nat, Partial>, back: seq<Frame>, served: seq<nat>,
                         wire: seq<seq<byte>>, k: nat, i: nat, f: Frame, d: seq<byte>)
    requires Arrives(sink, back, partial, k, i, f) && |sink.held| == |served| == |wire|
    requires Flying(Without(back, k), i) == 0 && d == NewBuf(sink, partial, i, f)
    requires Shaped(Write(sink, i, d))
    requires ContentsOk(sink, partial, back, served, wire)
    ensures ContentsOk(Write(sink, i, d), partial - {i}, Without(back, k), served, wire)
    ensures d == wire[i] && served[i] > 0
  {
    assert ContentOk(sink, partial, back, served, wire, i);
    BufferArriving(sink, partial, back, wire[i], k, i, f);
    forall b: nat | b < |d| ensures d[b] == wire[i][b] {
      if InTransit(Without(back, k), i, b) {
        var g :| g in Without(back, k) && CoversByte(g, i, b);
        SumMember(Without(back, k), DataWeight(i), g);
      }
    }
    assert d == wire[i];
    forall j: nat | j < |served|
      ensures ContentOk(Write(sink, i, d), partial - {i}, Without(back, k), served, wire, j)
    {
      assert ContentOk(sink, partial, back, served, wire, j);
      TakeWeights(back, k, j);
      if j != i && Flying(Without(back, k), j) + Have(partial - {i}, j) > 0 {
        OtherArriving(partial, partial - {i}, back, wire[j], k, j);
      }
    }
  }

  lemma CompleteProgress(sink: Sink, progress: int, partial: map<nat, Partial>, i: nat, n: nat, d: seq<byte>)
    requires Shaped(sink) && i < |sink.held| && !sink.held[i] && Have(partial, i) + n == sink.layout.Span(i) == |d|
    requires ProgressOk(progress, sink, partial)
    ensures ProgressOk(progress + n, Write(sink, i, d), partial - {i})
  {
    var l := sink.layout;
    TotalChange(|sink.held|, HaveAt(partial), HaveAt(partial - {i}), i);
    TotalChange(|sink.held|, BytesAt(l, sink.held), BytesAt(l, sink.held[i := true]), i);
    assert Write(sink, i, d).held == sink.held[i := true] && Write(sink, i, d).layout == l;
  }

  lemma CompleteOrigins(start: Sink, sink: Sink, attempts: map<nat, nat>, cache: map<nat, Digest>, i: nat, d: seq<byte>)
    requires Shaped(start) && Shaped(sink) && |start.held| == |sink.held| && i < |sink.held| && !sink.held[i]
    requires Shaped(Write(sink, i, d)) && OriginsOk(start, sink, attempts, cache)
    ensures OriginsOk(start, Write(sink, i, d), attempts, cache)
  {
    forall j: nat | j < |start.held| ensures OriginOk(start, Write(sink, i, d), attempts, cache, j) {
      assert OriginOk(start, sink, attempts, cache, j);
    }
  }
}
