/** One session as two state machines joined by two bags of frames. Either side
    may take any frame that is in transit to it, so nothing is assumed about
    order. The source's bytes may differ at every read. */
module Network {
  import opened Bytes
  import opened Sums
  import opened Wire
  import opened Sinks
  import opened Receivers
  import opened Hosts

  /** What a session is given: the sink it starts from and the connection's
      message limit (65536 on a data channel, anything from 262157 up on a stream). */
  datatype Setup = Setup(start: Sink, limit: nat)

  ghost predicate ValidSetup(c: Setup) {
    Shaped(c.start) && |c.start.held| < MAX32 && c.limit > DATA_HEADER
  }

  /** Receiver and host, and history: the windows the host has answered, how
      often each chunk was served, and the bytes it was last served with. */
  datatype Net = Net(r: Receiver, h: Host, answered: set<nat>, served: seq<nat>, wire: seq<seq<byte>>)

  /** A step: the host takes the k-th frame on its way to it, reading the source
      as bytes if it needs to; the receiver takes the k-th frame on its way to
      it; or another session of the same share reads chunk i for the first time. */
  datatype Label =
    | HostTakes(k: nat, bytes: seq<seq<byte>>)
    | PeerTakes(k: nat)
    | Elsewhere(i: nat, d: seq<byte>)

  function Zeros(n: nat): (r: seq<nat>)
    ensures |r| == n && forall i :: 0 <= i < n ==> r[i] == 0
  {
    seq(n, _ => 0)
  }

  function Blanks(n: nat): (r: seq<seq<byte>>)
    ensures |r| == n && forall i :: 0 <= i < n ==> r[i] == []
  {
    seq(n, _ => [])
  }

  ghost function Initial(c: Setup, cache: map<nat, Digest>): Net {
    var n := |c.start.held|;
    Net(Start(c.start), Host(c.start.layout, cache, false, false, 0, false, []), {}, Zeros(n), Blanks(n))
  }

  /** What can happen next. A faulted receiver has closed the session; a finished
      one takes no more frames. */
  ghost predicate Enabled(c: Setup, s: Net, a: Label) {
    s.r.fault.None? &&
    match a
    case HostTakes(k, bytes) => k < |s.r.out| && !s.h.closed && FitsChunks(c.start.layout, bytes)
    case PeerTakes(k) => k < |s.h.out| && !Finished(s.r)
    case Elsewhere(i, d) => i < |c.start.held| && i !in s.h.cache
  }

  /** served with one more for each chunk of the range. */
  function Bump(served: seq<nat>, first: nat, count: nat): (r: seq<nat>)
    ensures |r| == |served|
    ensures forall i: nat :: i < |r| ==> r[i] == served[i] + if first <= i < first + count then 1 else 0
  {
    seq(|served|, i requires 0 <= i < |served| => served[i] + if first <= i < first + count then 1 else 0)
  }

  function Overwrite(wire: seq<seq<byte>>, bytes: seq<seq<byte>>, first: nat, count: nat): (r: seq<seq<byte>>)
    requires |wire| == |bytes|
    ensures |r| == |wire|
    ensures forall i: nat :: i < |r| ==> r[i] == if first <= i < first + count then bytes[i] else wire[i]
  {
    seq(|wire|, i requires 0 <= i < |wire| => if first <= i < first + count then bytes[i] else wire[i])
  }

  /** The host's step before it looks whether to send DONE. */
  function HostAnswers(c: Setup, s: Net, k: nat, bytes: seq<seq<byte>>): Net
    requires c.limit > DATA_HEADER && k < |s.r.out| && |bytes| == |s.wire|
  {
    var f := s.r.out[k];
    Net(s.r.(out := Without(s.r.out, k)),
        Answer(s.h, f, bytes, c.limit),
        if f.HashReq? then s.answered + {f.first / HASH_WINDOW} else s.answered,
        if f.Req? then Bump(s.served, f.first, f.count) else s.served,
        if f.Req? then Overwrite(s.wire, bytes, f.first, f.count) else s.wire)
  }

  /** The receiver's step before it tops up its requests. */
  function PeerReacts(s: Net, k: nat): Net
    requires k < |s.h.out| && Formed(s.r)
  {
    s.(h := s.h.(out := Without(s.h.out, k)), r := React(s.r, s.h.out[k]))
  }

  ghost function Next(c: Setup, s: Net, a: Label): Net
    requires ValidSetup(c) && Formed(s.r) && Enabled(c, s, a) && |s.wire| == |c.start.held|
  {
    match a
    case HostTakes(k, bytes) =>
      HostAnswers(c, s, k, bytes).(h := Serve(s.h, s.r.out[k], bytes, c.limit))
    case PeerTakes(k) =>
      PeerReacts(s, k).(r := Handle(s.r, s.h.out[k]))
    case Elsewhere(i, d) =>
      s.(h := s.h.(cache := Learn(s.h.cache, i, d)))
  }

  // ----- what is counted

  function QueueWeight(i: nat): nat -> nat {
    (q: nat) => if q == i then 1 else 0
  }

  function ReqWeight(i: nat): Frame -> nat {
    (f: Frame) => if f.Req? && f.first <= i < f.first + f.count then 1 else 0
  }

  function DataWeight(i: nat): Frame -> nat {
    (f: Frame) => if f.Data? && f.index == i then |f.payload| else 0
  }

  function AskWeight(w: nat): Frame -> nat {
    (f: Frame) => if f.HashReq? && f.first == w * HASH_WINDOW then 1 else 0
  }

  function ReplyWeight(w: nat): Frame -> nat {
    (f: Frame) => if f.Hash? && f.first == w * HASH_WINDOW then 1 else 0
  }

  function DoneWeight(): Frame -> nat {
    (f: Frame) => if f.Done? then 1 else 0
  }

  /** Times chunk i waits in the queue. */
  function Queued(queue: seq<nat>, i: nat): nat {
    Sum(queue, QueueWeight(i))
  }

  /** REQ frames in transit that ask for chunk i. */
  function Requested(out: seq<Frame>, i: nat): nat {
    Sum(out, ReqWeight(i))
  }

  /** Bytes of chunk i in transit to the receiver. */
  function Flying(back: seq<Frame>, i: nat): nat {
    Sum(back, DataWeight(i))
  }

  /** Bytes of chunk i that wait in its partial buffer. */
  function Have(partial: map<nat, Partial>, i: nat): nat {
    if i in partial then partial[i].have else 0
  }

  /** Hash requests and hash answers of window w in transit. */
  function Asks(out: seq<Frame>, back: seq<Frame>, w: nat): nat {
    Sum(out, AskWeight(w)) + Sum(back, ReplyWeight(w))
  }

  /** 1 at each chunk asked for and not yet written. */
  function FlightAt(out: seq<Frame>, back: seq<Frame>, partial: map<nat, Partial>): nat -> int {
    (i: nat) => if Requested(out, i) > 0 || Flying(back, i) + Have(partial, i) > 0 then 1 else 0
  }

  function VerifiedAt(states: seq<WinState>): nat -> int {
    (w: nat) => if w < |states| && states[w] == Verified then 1 else 0
  }

  /** Bytes waiting in each partial buffer. */
  function HaveAt(partial: map<nat, Partial>): nat -> int {
    (i: nat) => Have(partial, i)
  }
}
