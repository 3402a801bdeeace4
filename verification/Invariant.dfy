/** What holds in every reachable state of a session with a cooperative host.
    Each predicate takes just the parts of the state it is about: out and back
    are the frames in transit to the host and to the receiver. */
module Invariant {
  import opened Bytes
  import opened Sums
  import opened Wire
  import opened Layouts
  import opened Sinks
  import opened Receivers
  import opened Hosts
  import opened Network

  ghost predicate Base(c: Setup, s: Net) {
    ValidSetup(c) && Formed(s.r) && s.r.fault.None? && !s.h.closed &&
    s.r.sink.layout == c.start.layout && s.r.Chunks() == |c.start.held| == |s.served| == |s.wire| &&
    forall k :: 0 <= k < |s.r.queue| ==> s.r.queue[k] < s.r.Chunks()
  }

  // ----- frames in transit

  /** first and count name a whole window of n chunks (or nothing of none). */
  predicate WindowRange(n: nat, first: nat, count: nat) {
    if n == 0 then first == 0 && count == 0
    else first % HASH_WINDOW == 0 && first / HASH_WINDOW < Windows(n) && count == WindowSize(n, first / HASH_WINDOW)
  }

  /** A frame the receiver may have sent. */
  predicate AskOk(n: nat, f: Frame) {
    (f.Req? && 0 < f.count && f.first + f.count <= n) || (f.HashReq? && WindowRange(n, f.first, f.count))
  }

  ghost predicate AsksOk(n: nat, out: seq<Frame>) {
    forall k :: 0 <= k < |out| ==> AskOk(n, out[k])
  }

  /** A frame the host may have sent. */
  ghost predicate ReplyOk(l: Layout, cache: map<nat, Digest>, f: Frame)
    requires l.chunk > 0
  {
    match f
    case Data(i, offset, p) => i < l.Chunks() && 0 < |p| && offset + |p| <= l.Span(i)
    case Hash(first, count, hs) =>
      WindowRange(l.Chunks(), first, count) && first + count <= l.Chunks() &&
      (forall i: nat :: first <= i < first + count ==> i in cache) && hs == Flatten(CachedRange(cache, first, count))
    case Done(root) => AllKnown(cache, l.Chunks()) && root == RootOf(cache, l.Chunks())
    case _ => false
  }

  ghost predicate RepliesOk(l: Layout, cache: map<nat, Digest>, back: seq<Frame>)
    requires l.chunk > 0
  {
    forall k :: 0 <= k < |back| ==> ReplyOk(l, cache, back[k])
  }

  // ----- chunks

  /** Chunk i is in exactly one place: queued, asked for, arriving (in transit and
      in its buffer, all bytes together), or held. */
  ghost predicate ChunkOk(sink: Sink, queue: seq<nat>, out: seq<Frame>, back: seq<Frame>,
                          partial: map<nat, Partial>, i: nat)
    requires Shaped(sink) && i < |sink.held|
  {
    var arriving := Flying(back, i) + Have(partial, i);
    Queued(queue, i) + Requested(out, i) + (if arriving > 0 then 1 else 0) + (if sink.held[i] then 1 else 0) == 1 &&
    (arriving == 0 || arriving == sink.layout.Span(i)) && Have(partial, i) < sink.layout.Span(i)
  }

  /** Queued, in flight and held: a partition of the chunks. */
  ghost predicate ChunksOk(sink: Sink, queue: seq<nat>, out: seq<Frame>, back: seq<Frame>, partial: map<nat, Partial>)
    requires Shaped(sink)
  {
    forall i: nat :: i < |sink.held| ==> ChunkOk(sink, queue, out, back, partial, i)
  }

  /** Chunk i was asked for once if it was missing, and once more for each time it was rejected. */
  ghost predicate TryOk(start: Sink, queue: seq<nat>, out: seq<Frame>, attempts: map<nat, nat>, served: seq<nat>,
                        i: nat)
    requires i < |start.held| == |served|
  {
    served[i] + Requested(out, i) + Queued(queue, i) == (if start.held[i] then 0 else 1) + Tried(attempts, i) &&
    Tried(attempts, i) <= MAX_ATTEMPTS
  }

  function Tried(attempts: map<nat, nat>, i: nat): nat {
    if i in attempts then attempts[i] else 0
  }

  ghost predicate TriesOk(start: Sink, queue: seq<nat>, out: seq<Frame>, attempts: map<nat, nat>, served: seq<nat>)
    requires |start.held| == |served|
  {
    forall i: nat :: i < |served| ==> TryOk(start, queue, out, attempts, served, i)
  }

  /** A chunk held from the start is untouched until it is rejected, and is
      rejected first because its recorded hash is not the host's. */
  ghost predicate OriginOk(start: Sink, sink: Sink, attempts: map<nat, nat>, cache: map<nat, Digest>, i: nat)
    requires Shaped(start) && Shaped(sink) && i < |start.held| == |sink.held|
  {
    start.held[i] ==>
      (Tried(attempts, i) == 0 ==>
         sink.held[i] && sink.hashes[i] == start.hashes[i] && sink.disk[i] == start.disk[i]) &&
      (Tried(attempts, i) > 0 ==> i in cache && start.hashes[i] != cache[i])
  }

  ghost predicate OriginsOk(start: Sink, sink: Sink, attempts: map<nat, nat>, cache: map<nat, Digest>)
    requires Shaped(start) && Shaped(sink) && |start.held| == |sink.held|
  {
    forall i: nat :: i < |start.held| ==> OriginOk(start, sink, attempts, cache, i)
  }

  /** A DATA frame for chunk i carries the bytes d of chunk i. */
  ghost predicate CarriesChunk(f: Frame, i: nat, d: seq<byte>) {
    f.Data? && f.index == i ==> f.offset + |f.payload| <= |d| && f.payload == d[f.offset..f.offset + |f.payload|]
  }

  ghost predicate CoversByte(f: Frame, i: nat, b: nat) {
    f.Data? && f.index == i && f.offset <= b < f.offset + |f.payload|
  }

  ghost predicate InTransit(back: seq<Frame>, i: nat, b: nat) {
    exists f :: f in back && CoversByte(f, i, b)
  }

  /** Every byte of a chunk on its way is in transit or right in the buffer. */
  ghost predicate ArrivingOk(partial: map<nat, Partial>, back: seq<Frame>, d: seq<byte>, i: nat) {
    (forall f :: f in back ==> CarriesChunk(f, i, d)) &&
    (forall b: nat :: b < |d| ==>
       InTransit(back, i, b) || (i in partial && |partial[i].buf| == |d| && partial[i].buf[b] == d[b]))
  }

  /** A chunk arriving is the chunk as served; a chunk written this session holds
      what it was served with, and its hash. */
  ghost predicate ContentOk(sink: Sink, partial: map<nat, Partial>, back: seq<Frame>,
                            served: seq<nat>, wire: seq<seq<byte>>, i: nat)
    requires Shaped(sink) && i < |sink.held| == |served| == |wire|
  {
    (Flying(back, i) + Have(partial, i) > 0 ==>
       served[i] > 0 && |wire[i]| == sink.layout.Span(i) && ArrivingOk(partial, back, wire[i], i)) &&
    (sink.held[i] && served[i] > 0 ==> sink.disk[i] == wire[i] && sink.hashes[i] == Sha256(wire[i]))
  }

  ghost predicate ContentsOk(sink: Sink, partial: map<nat, Partial>, back: seq<Frame>,
                             served: seq<nat>, wire: seq<seq<byte>>)
    requires Shaped(sink) && |sink.held| == |served| == |wire|
  {
    forall i: nat :: i < |served| ==> ContentOk(sink, partial, back, served, wire, i)
  }

  // ----- windows

  /** winRecv counts the chunks of w that are held. A pending window lacks some
      and nothing about it is in transit; an asked one has all and exactly one
      request or answer in transit; a verified one has all with the host's hashes. */
  ghost predicate WindowOk(sink: Sink, winRecv: seq<int>, winState: seq<WinState>, out: seq<Frame>, back: seq<Frame>,
                           answered: set<nat>, cache: map<nat, Digest>, w: nat)
    requires Shaped(sink) && w < |winState| == |winRecv|
  {
    var full := WindowSize(|sink.held|, w);
    winRecv[w] == HeldInWindow(sink.held, w) &&
    (Sum(back, ReplyWeight(w)) > 0 || winState[w] == Verified ==> w in answered) &&
    match winState[w]
    case Pending => Asks(out, back, w) == 0 && winRecv[w] < full
    case Asked => Asks(out, back, w) == 1 && winRecv[w] == full
    case Verified => Asks(out, back, w) == 0 && winRecv[w] == full && HashesAgree(sink, cache, w)
  }

  /** The recorded hashes of window w are the host's. */
  ghost predicate HashesAgree(sink: Sink, cache: map<nat, Digest>, w: nat)
    requires Shaped(sink)
  {
    forall i: nat :: i < |sink.held| && i / HASH_WINDOW == w ==> i in cache && sink.hashes[i] == cache[i]
  }

  ghost predicate WindowsOk(sink: Sink, winRecv: seq<int>, winState: seq<WinState>, out: seq<Frame>, back: seq<Frame>,
                            answered: set<nat>, cache: map<nat, Digest>)
    requires Shaped(sink) && |winState| == |winRecv|
  {
    forall w: nat :: w < |winState| ==> WindowOk(sink, winRecv, winState, out, back, answered, cache, w)
  }

  /** The host knows every hash of a window it has answered. */
  ghost predicate AnsweredOk(n: nat, answered: set<nat>, cache: map<nat, Digest>) {
    forall i: nat :: i < n && i / HASH_WINDOW in answered ==> i in cache
  }

  // ----- counters

  ghost predicate OutstandingOk(n: nat, outstanding: int, out: seq<Frame>, back: seq<Frame>,
                                partial: map<nat, Partial>)
  {
    outstanding == Total(n, FlightAt(out, back, partial))
  }

  ghost predicate VerifiedOk(verified: int, winState: seq<WinState>) {
    verified == Total(|winState|, VerifiedAt(winState))
  }

  /** Progress is the bytes of held chunks and of partial ones. */
  ghost predicate ProgressOk(progress: int, sink: Sink, partial: map<nat, Partial>) {
    progress == ReceivedBytes(sink) + Total(|sink.held|, HaveAt(partial))
  }

  /** DONE is on its way or has arrived exactly when it was sent, with the root over the cache. */
  ghost predicate DoneOk(n: nat, root: Option<seq<byte>>, doneSent: bool, cache: map<nat, Digest>, back: seq<Frame>) {
    Sum(back, DoneWeight()) + (if root.Some? then 1 else 0) == (if doneSent then 1 else 0) &&
    (root.Some? ==> AllKnown(cache, n) && root.value == RootOf(cache, n))
  }

  /** The host has noted the last chunk exactly when it was served, and sends DONE only then. */
  ghost predicate LastOk(lastRequested: bool, doneSent: bool, served: seq<nat>) {
    |served| > 0 ==> (lastRequested <==> served[|served| - 1] > 0) && (doneSent ==> lastRequested)
  }

  /** With nothing to fetch, a request is in transit until DONE is sent. */
  ghost predicate EmptyOk(n: nat, doneSent: bool, out: seq<Frame>) {
    n == 0 ==> doneSent || out != []
  }

  /** All of the above but the last. */
  ghost predicate Kernel(c: Setup, s: Net) {
    Base(c, s) &&
    AsksOk(s.r.Chunks(), s.r.out) && RepliesOk(c.start.layout, s.h.cache, s.h.out) &&
    ChunksOk(s.r.sink, s.r.queue, s.r.out, s.h.out, s.r.partial) &&
    TriesOk(c.start, s.r.queue, s.r.out, s.r.attempts, s.served) &&
    OriginsOk(c.start, s.r.sink, s.r.attempts, s.h.cache) &&
    ContentsOk(s.r.sink, s.r.partial, s.h.out, s.served, s.wire) &&
    WindowsOk(s.r.sink, s.r.winRecv, s.r.winState, s.r.out, s.h.out, s.answered, s.h.cache) &&
    AnsweredOk(s.r.Chunks(), s.answered, s.h.cache) &&
    OutstandingOk(s.r.Chunks(), s.r.outstanding, s.r.out, s.h.out, s.r.partial) &&
    VerifiedOk(s.r.verified, s.r.winState) && ProgressOk(s.r.progress, s.r.sink, s.r.partial) &&
    DoneOk(s.r.Chunks(), s.r.root, s.h.doneSent, s.h.cache, s.h.out) &&
    LastOk(s.h.lastRequested, s.h.doneSent, s.served)
  }

  /** What every single step keeps. */
  ghost predicate Core(c: Setup, s: Net) {
    Kernel(c, s) && EmptyOk(s.r.Chunks(), s.h.doneSent, s.r.out)
  }

  /** After fill: never more than 64 outstanding, and exactly 64 while anything is queued. */
  ghost predicate FillOk(s: Net) {
    s.r.outstanding <= IN_FLIGHT && (s.r.queue != [] ==> s.r.outstanding == IN_FLIGHT)
  }

  /** Once the last chunk was asked for and every window answered, DONE was sent. */
  ghost predicate HostOk(s: Net) {
    s.h.lastRequested && (forall w: nat :: w < |s.r.winState| ==> w in s.answered) ==> s.h.doneSent
  }

  ghost predicate Inv(c: Setup, s: Net) {
    Core(c, s) && FillOk(s) && HostOk(s)
  }
}
