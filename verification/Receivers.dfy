/** The receiver's scheduler and verifier as functions on its whole state: the
    queue of chunks to ask for, the chunks half arrived, the hash windows, the
    retry counts and the frames written towards the host. */
module Receivers {
  import opened Bytes
  import opened Sums
  import opened Wire
  import opened Store
  import opened Sinks

  const IN_FLIGHT: nat := 64
  const HASH_WINDOW: nat := 256
  const MAX_ATTEMPTS: nat := 3

  datatype WinState = Pending | Asked | Verified

  /** A chunk of which some bytes have arrived. */
  datatype Partial = Partial(buf: seq<byte>, have: nat)

  /** The errors run returns. */
  datatype Fault =
    | OutOfRange
    | ExceedsChunk
    | HashRange
    | TooManyAttempts(chunk: nat)
    | HostError(code: byte, msg: seq<byte>)

  /** out holds the frames written to the connection that the host has not taken. */
  datatype Receiver = Receiver(
    sink: Sink,
    queue: seq<nat>,
    outstanding: int,
    partial: map<nat, Partial>,
    attempts: map<nat, nat>,
    winRecv: seq<int>,
    winState: seq<WinState>,
    verified: int,
    root: Option<seq<byte>>,
    progress: int,
    out: seq<Frame>,
    fault: Option<Fault>)
  {
    function Chunks(): nat {
      |sink.held|
    }

    function Attempts(i: nat): nat {
      if i in attempts then attempts[i] else 0
    }
  }

  function Windows(n: nat): nat {
    (n + HASH_WINDOW - 1) / HASH_WINDOW
  }

  /** Chunks in window w of n chunks. */
  function WindowSize(n: nat, w: nat): int {
    Min(n - w * HASH_WINDOW, HASH_WINDOW)
  }

  /** The sizes of the parts agree; every partial chunk has a buffer of its chunk's length. */
  ghost predicate Formed(r: Receiver) {
    Shaped(r.sink) && |r.winRecv| == |r.winState| == Windows(r.Chunks()) &&
    forall i :: i in r.partial ==> i < r.Chunks() && |r.partial[i].buf| == r.sink.layout.Span(i)
  }

  /** 1 at each recorded chunk of window w. */
  function HeldIn(held: seq<bool>, w: nat): nat -> int {
    (i: nat) => if i < |held| && held[i] && i / HASH_WINDOW == w then 1 else 0
  }

  function HeldInWindow(held: seq<bool>, w: nat): int {
    Total(|held|, HeldIn(held, w))
  }

  function Send(r: Receiver, f: Frame): Receiver {
    r.(out := r.out + [f])
  }

  // ----- asking

  /** requestHashes. */
  function RequestHashes(r: Receiver, w: nat): Receiver
    requires w < |r.winState|
  {
    Send(r.(winState := r.winState[w := Asked]),
         HashReq(U32(w * HASH_WINDOW), U32(WindowSize(r.Chunks(), w))))
  }

  /** How far from its k-th entry on the queue runs consecutively within the limit. */
  function RunLength(queue: seq<nat>, outstanding: int, k: nat): nat
    requires 0 < k <= |queue|
    decreases |queue| - k
  {
    if k < |queue| && queue[k] == queue[0] + k && outstanding + k < IN_FLIGHT
    then RunLength(queue, outstanding, k + 1)
    else k
  }

  /** One REQ of fill: the longest run of consecutive indexes at the front of the queue. */
  function FillOne(r: Receiver): (s: Receiver)
    requires r.queue != []
    ensures |s.queue| < |r.queue|
  {
    RunLengthBounds(r.queue, r.outstanding, 1);
    var n := RunLength(r.queue, r.outstanding, 1);
    Send(r.(queue := r.queue[n..], outstanding := r.outstanding + n), Req(U32(r.queue[0]), U32(n)))
  }

  function Fill(r: Receiver): Receiver
    decreases |r.queue|
  {
    if r.outstanding < IN_FLIGHT && r.queue != [] then Fill(FillOne(r)) else r
  }

  lemma {:induction false} RunLengthBounds(queue: seq<nat>, outstanding: int, k: nat)
    requires 0 < k <= |queue| && forall j :: 0 <= j < k ==> queue[j] == queue[0] + j
    ensures var n := RunLength(queue, outstanding, k);
            k <= n <= |queue| && (forall j :: 0 <= j < n ==> queue[j] == queue[0] + j) &&
            (n > k ==> outstanding + n <= IN_FLIGHT) &&
            (n < |queue| && queue[n] == queue[0] + n ==> outstanding + n >= IN_FLIGHT)
    decreases |queue| - k
  {
    if k < |queue| && queue[k] == queue[0] + k && outstanding + k < IN_FLIGHT {
      RunLengthBounds(queue, outstanding, k + 1);
    }
  }

  // ----- a session's beginning

  /** The held chunks of each window. */
  function WindowCounts(held: seq<bool>): (r: seq<int>)
    ensures |r| == Windows(|held|) && forall w: nat :: w < |r| ==> r[w] == HeldInWindow(held, w)
  {
    seq(Windows(|held|), w requires 0 <= w => HeldInWindow(held, w))
  }

  function AllPending(n: nat): (r: seq<WinState>)
    ensures |r| == n && forall w: nat :: w < n ==> r[w] == Pending
  {
    seq(n, _ => Pending)
  }

  /** The receiver as run sets it up over a sink. */
  ghost function Begin(s: Sink): Receiver {
    Receiver(s, Missing(s), 0, map[], map[], WindowCounts(s.held), AllPending(Windows(|s.held|)), 0, None,
             ReceivedBytes(s), [], None)
  }

  /** Asks for the hashes of the windows from w on that are complete already. */
  function AskComplete(r: Receiver, w: nat): Receiver
    requires |r.winRecv| == |r.winState|
    decreases |r.winState| - w
  {
    if w >= |r.winState| then r
    else AskComplete(if r.winRecv[w] == WindowSize(r.Chunks(), w) then RequestHashes(r, w) else r, w + 1)
  }

  /** The receiver when run enters its loop. */
  ghost function Start(s: Sink): Receiver {
    var r := AskComplete(Begin(s), 0);
    Fill(if |s.held| == 0 then Send(r, HashReq(0, 0)) else r)
  }

  // ----- frames from the host

  /** The bytes of chunk i so far; a fresh zeroed buffer if none have arrived. */
  function PartialOf(r: Receiver, i: nat, span: nat): Partial {
    if i in r.partial then r.partial[i] else Partial(seq(span, _ => 0), 0)
  }

  /** onData once chunk i has all its bytes. */
  function Finish(r: Receiver, i: nat, buf: seq<byte>): Receiver
    requires i < |r.sink.disk| == |r.sink.held| == |r.sink.hashes|
    requires i / HASH_WINDOW < |r.winRecv| == |r.winState|
  {
    var w := i / HASH_WINDOW;
    var s := r.(partial := r.partial - {i}, outstanding := r.outstanding - 1,
                sink := Write(r.sink, i, buf), winRecv := r.winRecv[w := r.winRecv[w] + 1]);
    if s.winRecv[w] == WindowSize(r.Chunks(), w) && s.winState[w] == Pending then RequestHashes(s, w) else s
  }

  function OnData(r: Receiver, i: nat, offset: nat, p: seq<byte>): Receiver
    requires Formed(r)
  {
    if i >= r.Chunks() then r.(fault := Some(OutOfRange))
    else
      var span := r.sink.layout.Span(i);
      if offset + |p| > span then r.(fault := Some(ExceedsChunk))
      else
        var part := PartialOf(r, i, span);
        var buf := Splice(part.buf, offset, p);
        var have := part.have + |p|;
        var s := r.(progress := r.progress + |p|);
        if have < span then s.(partial := s.partial[i := Partial(buf, have)])
        else Finish(s, i, buf)
  }

  /** onHash's accounting for the rejected chunks, one at a time, stopping at
      the first that has been rejected too often. */
  function Charge(r: Receiver, w: nat, bad: seq<nat>): Receiver
    requires w < |r.winRecv|
    requires r.sink.layout.chunk > 0 && forall k :: 0 <= k < |bad| ==> bad[k] < r.sink.layout.Chunks()
    decreases |bad|
  {
    if bad == [] then r
    else
      var i := bad[0];
      var s := r.(attempts := r.attempts[i := r.Attempts(i) + 1]);
      if s.attempts[i] > MAX_ATTEMPTS then s.(fault := Some(TooManyAttempts(i)))
      else
        Charge(s.(progress := s.progress - s.sink.layout.Span(i), winRecv := s.winRecv[w := s.winRecv[w] - 1]),
               w, bad[1..])
  }

  /** onHash when every recorded chunk of window w agreed. */
  function Accept(r: Receiver, w: nat): Receiver
    requires w < |r.winState|
  {
    if r.winState[w] != Verified then r.(winState := r.winState[w := Verified], verified := r.verified + 1) else r
  }

  /** onHash when some chunks of window w were rejected: they are queued again, first. */
  function Reject(r: Receiver, w: nat, bad: seq<nat>): Receiver
    requires w < |r.winRecv| == |r.winState|
    requires r.sink.layout.chunk > 0 && forall k :: 0 <= k < |bad| ==> bad[k] < r.sink.layout.Chunks()
  {
    var s := Charge(r.(winState := r.winState[w := Pending]), w, bad);
    if s.fault.None? then s.(queue := bad + s.queue) else s
  }

  function OnHash(r: Receiver, first: nat, count: nat, hs: seq<byte>): Receiver
    requires Formed(r)
  {
    var w := first / HASH_WINDOW;
    if r.Chunks() == 0 then r
    else if first % HASH_WINDOW != 0 || w >= Windows(r.Chunks()) || count != WindowSize(r.Chunks(), w) then
      r.(fault := Some(HashRange))
    else
      BadInRange(r.sink, first, hs);
      var bad := Bad(r.sink, first, hs);
      var s := r.(sink := Verify(r.sink, first, hs));
      if bad == [] then Accept(s, w) else Reject(s, w, bad)
  }

  lemma BadInRange(s: Sink, first: nat, hs: seq<byte>)
    requires Shaped(s)
    ensures forall k :: 0 <= k < |Bad(s, first, hs)| ==> Bad(s, first, hs)[k] < s.layout.Chunks()
  {
    BadExact(s, first, hs);
    assert forall k :: 0 <= k < |Bad(s, first, hs)| ==> Bad(s, first, hs)[k] in Bad(s, first, hs);
  }

  /** What one frame does before the queue is topped up again. */
  function React(r: Receiver, f: Frame): Receiver
    requires Formed(r)
  {
    match f
    case Data(i, offset, p) => OnData(r, i, offset, p)
    case Hash(first, count, hs) => OnHash(r, first, count, hs)
    case Done(root) => r.(root := Some(root))
    case Error(code, msg) => r.(fault := Some(HostError(code, msg)))
    case _ => r
  }

  /** One turn of run's loop. */
  function Handle(r: Receiver, f: Frame): Receiver
    requires Formed(r)
  {
    var s := React(r, f);
    if s.fault.None? then Fill(s) else s
  }

  predicate AllVerified(r: Receiver) {
    Complete(r.sink) && r.verified == Windows(r.Chunks())
  }

  predicate Finished(r: Receiver) {
    AllVerified(r) && r.root.Some?
  }

  /** run returns nil: finished, and the host's root is the sink's. */
  predicate Succeeds(r: Receiver) {
    Finished(r) && r.root.value == Root(r.sink)
  }

  // ----- frames of any host

  /** Fill touches the queue, the count of outstanding chunks and the connection only. */
  lemma {:induction false} FillFrame(r: Receiver)
    ensures Fill(r) == r.(queue := Fill(r).queue, outstanding := Fill(r).outstanding, out := Fill(r).out)
    decreases |r.queue|
  {
    if r.outstanding < IN_FLIGHT && r.queue != [] {
      FillFrame(FillOne(r));
    }
  }

  /** Charge touches the retry counts, the window count, the progress counter and the fault only. */
  lemma {:induction false} ChargeFrame(r: Receiver, w: nat, bad: seq<nat>)
    requires w < |r.winRecv|
    requires r.sink.layout.chunk > 0 && forall k :: 0 <= k < |bad| ==> bad[k] < r.sink.layout.Chunks()
    ensures var s := Charge(r, w, bad);
            |s.winRecv| == |r.winRecv| &&
            s == r.(attempts := s.attempts, winRecv := s.winRecv, progress := s.progress, fault := s.fault)
    decreases |bad|
  {
    if bad != [] {
      var i := bad[0];
      var s := r.(attempts := r.attempts[i := r.Attempts(i) + 1]);
      if s.attempts[i] <= MAX_ATTEMPTS {
        ChargeFrame(s.(progress := s.progress - s.sink.layout.Span(i), winRecv := s.winRecv[w := s.winRecv[w] - 1]),
                    w, bad[1..]);
      }
    }
  }

  /** One state after another: formed still, over the same layout, and no less to be trusted. */
  ghost predicate Keeps(r: Receiver, s: Receiver) {
    Formed(s) && s.sink.layout == r.sink.layout && forall src :: Trusts(r.sink, src) ==> Trusts(s.sink, src)
  }

  /** Whatever frame arrives, the state stays formed and the sink's records can
      be trusted as before. */
  lemma HandleKeeps(r: Receiver, f: Frame)
    requires Formed(r)
    ensures Keeps(r, Handle(r, f))
  {
    hide React;
    hide Fill;
    ReactKeeps(r, f);
    FillFrame(React(r, f));
  }

  lemma ReactKeeps(r: Receiver, f: Frame)
    requires Formed(r)
    ensures Keeps(r, React(r, f))
  {
    hide OnData;
    hide OnHash;
    match f {
      case Data(i, offset, p) =>
        OnDataKeeps(r, i, offset, p);
      case Hash(first, count, hs) =>
        OnHashKeeps(r, first, count, hs);
      case _ =>
    }
  }

  lemma OnDataKeeps(r: Receiver, i: nat, offset: nat, p: seq<byte>)
    requires Formed(r)
    ensures Keeps(r, OnData(r, i, offset, p))
  {
    hide Splice;
    if i < r.Chunks() && offset + |p| <= r.sink.layout.Span(i) {
      var part := PartialOf(r, i, r.sink.layout.Span(i));
      WriteKeeps(r.sink, i, Splice(part.buf, offset, p));
    }
  }

  lemma OnHashKeeps(r: Receiver, first: nat, count: nat, hs: seq<byte>)
    requires Formed(r)
    ensures Keeps(r, OnHash(r, first, count, hs))
  {
    VerifyKeeps(r.sink, first, hs);
    var w, bad := first / HASH_WINDOW, Bad(r.sink, first, hs);
    if r.Chunks() != 0 && w < Windows(r.Chunks()) {
      BadInRange(r.sink, first, hs);
      RejectFrame(r.(sink := Verify(r.sink, first, hs)), w, bad);
    }
  }

  lemma RejectFrame(r: Receiver, w: nat, bad: seq<nat>)
    requires w < |r.winRecv| == |r.winState|
    requires r.sink.layout.chunk > 0 && forall k :: 0 <= k < |bad| ==> bad[k] < r.sink.layout.Chunks()
    ensures var s := Reject(r, w, bad);
            s.sink == r.sink && s.partial == r.partial && |s.winRecv| == |s.winState| == |r.winState|
  {
    ChargeFrame(r.(winState := r.winState[w := Pending]), w, bad);
  }

  /** Frames handled in turn until the run ends by a fault or by finishing. */
  function RunOn(r: Receiver, fs: seq<Frame>): Receiver
    requires Formed(r)
    decreases |fs|
  {
    if fs == [] || Finished(r) || r.fault.Some? then r
    else
      HandleKeeps(r, fs[0]);
      RunOn(Handle(r, fs[0]), fs[1..])
  }

  lemma {:induction false} RunOnKeeps(r: Receiver, fs: seq<Frame>)
    requires Formed(r)
    ensures Keeps(r, RunOn(r, fs))
    decreases |fs|
  {
    if fs != [] && !Finished(r) && r.fault.None? {
      HandleKeeps(r, fs[0]);
      RunOnKeeps(Handle(r, fs[0]), fs[1..]);
    }
  }

  lemma {:induction false} AskCompleteFrame(r: Receiver, w: nat)
    requires |r.winRecv| == |r.winState|
    ensures var s := AskComplete(r, w);
            |s.winState| == |r.winState| && s == r.(winState := s.winState, out := s.out)
    decreases |r.winState| - w
  {
    if w < |r.winState| {
      AskCompleteFrame(if r.winRecv[w] == WindowSize(r.Chunks(), w) then RequestHashes(r, w) else r, w + 1);
    }
  }

  lemma StartFormed(s: Sink)
    requires Shaped(s)
    ensures Formed(Start(s)) && Start(s).sink == s
  {
    var b := Begin(s);
    AskCompleteFrame(b, 0);
    var r := AskComplete(b, 0);
    FillFrame(if |s.held| == 0 then Send(r, HashReq(0, 0)) else r);
  }

  /** A whole session of run over the frames fs. */
  ghost function RunFrom(s: Sink, fs: seq<Frame>): Receiver
    requires Shaped(s)
  {
    StartFormed(s);
    RunOn(Start(s), fs)
  }

  lemma RunFromFormed(s: Sink, fs: seq<Frame>)
    requires Shaped(s)
    ensures Formed(RunFrom(s, fs)) && RunFrom(s, fs).sink.layout == s.layout
  {
    StartFormed(s);
    RunOnKeeps(Start(s), fs);
  }

  /** Safety against any host. From a sink that can be trusted, whatever frames
      arrive, in whatever order and number: if the run succeeds and the root in
      DONE is the source's, the sink holds the source's bytes, or the bytes on
      either side exhibit a hash collision. */
  lemma AnyHostSafe(s: Sink, fs: seq<Frame>, src: seq<seq<byte>>)
    requires Shaped(s) && Trusts(s, src) && FitsChunks(s.layout, src)
    requires var r := RunFrom(s, fs);
             r.fault.None? && Succeeds(r) && r.root.value == Sha256(Flatten(Digests(src)))
    ensures SameOrCollision(RunFrom(s, fs).sink.disk, RunFrom(s, fs).sink.hashes, src)
  {
    StartFormed(s);
    RunOnKeeps(Start(s), fs);
    RootDecides(RunFrom(s, fs).sink, src);
  }

  /** ... in terms of files, for a sink whose recorded hashes match its files to begin with. */
  lemma AnyHostSameFiles(s: Sink, fs: seq<Frame>, files: seq<seq<byte>>, srcFiles: seq<seq<byte>>)
    requires Shaped(s) && Recorded(s) && Fits(s.layout, files) && Fits(s.layout, srcFiles)
    requires var r := RunFrom(s, fs);
             r.fault.None? && Succeeds(r) && r.root.value == Sha256(Flatten(Digests(ChunksOf(s.layout, srcFiles)))) &&
             r.sink.disk == ChunksOf(s.layout, files)
    ensures SameFilesOrCollision(s.layout, files, RunFrom(s, fs).sink.hashes, srcFiles)
  {
    hide RunFrom;
    hide Succeeds;
    var src := ChunksOf(s.layout, srcFiles);
    RecordedTrusts(s, src);
    ChunksOfFit(s.layout, srcFiles);
    AnyHostSafe(s, fs, src);
    SameFiles(s.layout, files, RunFrom(s, fs).sink.hashes, srcFiles);
  }
}
