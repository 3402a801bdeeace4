/** What single frames of any host, well behaved or not, do to a receiver. */
module AnyHosts {
  import opened Bytes
  import opened Sums
  import opened Wire
  import opened Store
  import opened Sinks
  import opened Receivers
  import opened Invariant
  import opened StepFill
  import opened StepHash

  // ----- which frames end a run

  /** The chunk was rejected three times before. */
  ghost predicate Exhausted(r: Receiver, i: nat) {
    Tried(r.attempts, i) >= 3
  }

  /** first and count are the range of one of the windows of n chunks. */
  ghost predicate IsWindow(n: nat, first: nat, count: nat) {
    first % 256 == 0 && first < n && count == Min(n - first, 256)
  }

  lemma WindowRange(n: nat, first: nat, count: nat)
    ensures IsWindow(n, first, count) <==>
            first % HASH_WINDOW == 0 && first / HASH_WINDOW < Windows(n) &&
            count == WindowSize(n, first / HASH_WINDOW)
  {
  }

  lemma ChargeFaults(r: Receiver, w: nat, bad: seq<nat>)
    requires Formed(r) && w < |r.winRecv| && r.fault.None?
    requires Distinct(bad) && forall k :: 0 <= k < |bad| ==> bad[k] < r.sink.layout.Chunks()
    ensures Reject(r, w, bad).fault.Some? <==> exists i: nat :: i in bad && Exhausted(r, i)
  {
    ChargeEffect(r.(winState := r.winState[w := Pending]), w, bad);
    var t := Reject(r, w, bad);
    if t.fault.Some? {
      assert Exhausted(r, t.fault.value.chunk);
    }
  }

  /** A frame ends the run exactly when it is DATA outside its chunk, HASH for what
      is not a window, HASH that rejects a chunk a fourth time, or ERROR. */
  lemma FaultsExactly(r: Receiver, f: Frame)
    requires Formed(r) && r.fault.None?
    ensures Handle(r, f).fault.Some? <==>
            match f
            case Data(i, offset, p) => i >= r.Chunks() || offset + |p| > r.sink.layout.Span(i)
            case Hash(first, count, hs) =>
              r.Chunks() > 0 &&
              (!IsWindow(r.Chunks(), first, count) ||
               exists i: nat :: Mismatch(r.sink, first, hs, i) && Exhausted(r, i))
            case Error(_, _) => true
            case _ => false
  {
    hide Reject;
    hide Fill;
    FillFrame(React(r, f));
    match f {
      case Hash(first, count, hs) =>
        WindowRange(r.Chunks(), first, count);
        if r.Chunks() > 0 && IsWindow(r.Chunks(), first, count) {
          BadInRange(r.sink, first, hs);
          BadExact(r.sink, first, hs);
          ChargeFaults(r.(sink := Verify(r.sink, first, hs)), first / HASH_WINDOW, Bad(r.sink, first, hs));
        }
      case _ =>
    }
  }

  lemma {:induction false} RunOnSplit(r: Receiver, fs: seq<Frame>, gs: seq<Frame>)
    requires Formed(r)
    ensures Formed(RunOn(r, fs)) && RunOn(r, fs + gs) == RunOn(RunOn(r, fs), gs)
    decreases |fs|
  {
    hide Handle;
    hide Finished;
    RunOnKeeps(r, fs);
    if fs == [] {
      assert fs + gs == gs;
    } else if !Finished(r) && r.fault.None? {
      HandleKeeps(r, fs[0]);
      assert (fs + gs)[1..] == fs[1..] + gs;
      RunOnSplit(Handle(r, fs[0]), fs[1..], gs);
    }
  }

  /** An ERROR frame that finds the run still going ends it with that error, the
      sink as it was, whatever follows. */
  lemma ErrorEnds(s: Sink, fs: seq<Frame>, code: byte, msg: seq<byte>, gs: seq<Frame>)
    requires Shaped(s) && !Finished(RunFrom(s, fs)) && RunFrom(s, fs).fault.None?
    ensures RunFrom(s, fs + ([Error(code, msg)] + gs)) == RunFrom(s, fs).(fault := Some(HostError(code, msg)))
  {
    StartFormed(s);
    var r := RunFrom(s, fs);
    RunOnSplit(Start(s), fs, [Error(code, msg)] + gs);
    HandleKeeps(r, Error(code, msg));
    assert ([Error(code, msg)] + gs)[1..] == gs;
  }

  /** The payload of the last DONE of fs. */
  function LastDone(fs: seq<Frame>): Option<seq<byte>> {
    if fs == [] then None
    else if fs[|fs| - 1].Done? then Some(fs[|fs| - 1].payload)
    else LastDone(fs[..|fs| - 1])
  }

  lemma ReactRoot(r: Receiver, f: Frame)
    requires Formed(r)
    ensures Handle(r, f).root == if f.Done? then Some(f.payload) else r.root
  {
    hide Charge;
    hide Fill;
    hide Bad;
    hide Write;
    hide Splice;
    hide PartialOf;
    FillFrame(React(r, f));
    match f {
      case Hash(first, count, hs) =>
        var w := first / HASH_WINDOW;
        if r.Chunks() != 0 && w < Windows(r.Chunks()) {
          BadInRange(r.sink, first, hs);
          ChargeFrame(r.(sink := Verify(r.sink, first, hs), winState := r.winState[w := Pending]), w,
                      Bad(r.sink, first, hs));
        }
      case _ =>
    }
  }

  /** While a run goes on, the root it will check is that of the latest DONE. */
  lemma {:induction false} RootIsLatest(s: Sink, fs: seq<Frame>)
    requires Shaped(s) && RunFrom(s, fs).fault.None? && !Finished(RunFrom(s, fs))
    ensures RunFrom(s, fs).root == LastDone(fs)
    decreases |fs|
  {
    hide Handle;
    hide Finished;
    StartFormed(s);
    if fs == [] {
      StartRoot(s);
    } else {
      var gs, f := fs[..|fs| - 1], fs[|fs| - 1];
      assert fs == gs + [f];
      RunOnSplit(Start(s), gs, [f]);
      var r := RunFrom(s, gs);
      if !Finished(r) && r.fault.None? {
        HandleKeeps(r, f);
        assert RunOn(r, [f]) == RunOn(Handle(r, f), [f][1..]) == Handle(r, f);
        ReactRoot(r, f);
        RootIsLatest(s, gs);
      }
    }
  }

  lemma StartRoot(s: Sink)
    requires Shaped(s)
    ensures Start(s).root == None
  {
    AskCompleteFrame(Begin(s), 0);
    var r := AskComplete(Begin(s), 0);
    FillFrame(if |s.held| == 0 then Send(r, HashReq(0, 0)) else r);
  }

  /** Frames that are not for a receiver change nothing once the requests are topped up. */
  lemma OthersIgnored(r: Receiver, f: Frame)
    requires Formed(r) && r.fault.None? && (r.outstanding >= 64 || r.queue == [])
    requires f.Auth? || f.ManifestAck? || f.Req? || f.HashReq? || f.Cancel? || f.Unknown?
    ensures Handle(r, f) == r
  {
  }

  // ----- what a frame does to the windows

  /** Window w goes from one state to another by a frame only as it should: asked
      about when DATA completes it, verified when a HASH for just this window
      disagrees with none of its recorded hashes, pending again when one does. */
  ghost predicate WindowStep(r: Receiver, t: Receiver, f: Frame, w: nat)
    requires |r.sink.held| == |r.sink.hashes| && w < |r.winState| == |t.winState| == |t.winRecv|
  {
    var n := r.Chunks();
    t.winState[w] == r.winState[w] ||
    match t.winState[w]
    case Asked =>
      r.winState[w] == Pending && f.Data? && f.index / 256 == w && t.winRecv[w] == Min(n - 256 * w, 256)
    case Verified =>
      f.Hash? && f.first == 256 * w && f.count == Min(n - 256 * w, 256) &&
      forall i: nat :: f.first <= i < n && 32 * (i - f.first) + 32 <= |f.payload| && r.sink.held[i] ==>
        r.sink.hashes[i] == DigestAt(f.payload, i - f.first)
    case Pending =>
      f.Hash? && f.first == 256 * w && f.count == Min(n - 256 * w, 256) &&
      exists i: nat :: Mismatch(r.sink, f.first, f.payload, i)
  }

  /** Window w becomes verified. */
  ghost predicate NewlyVerified(r: Receiver, t: Receiver, w: nat) {
    w < |r.winState| == |t.winState| && r.winState[w] != Verified && t.winState[w] == Verified
  }

  /** All windows take such a step, and verified goes up by one exactly when one of them becomes verified. */
  ghost predicate WindowsStep(r: Receiver, t: Receiver, f: Frame)
    requires |r.sink.held| == |r.sink.hashes|
  {
    |t.winState| == |t.winRecv| == |r.winState| &&
    (forall w: nat :: w < |r.winState| ==> WindowStep(r, t, f, w)) &&
    t.verified == r.verified + if exists w: nat :: NewlyVerified(r, t, w) then 1 else 0
  }

  lemma DataWindows(r: Receiver, f: Frame)
    requires Formed(r) && f.Data?
    ensures WindowsStep(r, React(r, f), f)
  {
    hide Splice;
    hide Write;
  }

  lemma AcceptWindows(r: Receiver, f: Frame)
    requires Formed(r) && f.Hash? && IsWindow(r.Chunks(), f.first, f.count) && Bad(r.sink, f.first, f.payload) == []
    requires f.first / HASH_WINDOW < |r.winState|
    ensures WindowsStep(r, Accept(r.(sink := Verify(r.sink, f.first, f.payload)), f.first / HASH_WINDOW), f)
  {
    hide Bad;
    hide DigestAt;
    BadExact(r.sink, f.first, f.payload);
    var w := f.first / HASH_WINDOW;
    var t := Accept(r.(sink := Verify(r.sink, f.first, f.payload)), w);
    assert r.winState[w] != Verified ==> NewlyVerified(r, t, w);
    forall i: nat | f.first <= i < r.Chunks() && 32 * (i - f.first) + 32 <= |f.payload| && r.sink.held[i]
      ensures r.sink.hashes[i] == DigestAt(f.payload, i - f.first)
    {
      assert !Mismatch(r.sink, f.first, f.payload, i);
    }
  }

  lemma RejectedWindows(r: Receiver, f: Frame)
    requires Formed(r) && f.Hash? && IsWindow(r.Chunks(), f.first, f.count)
    requires var bad := Bad(r.sink, f.first, f.payload);
             bad != [] && forall k :: 0 <= k < |bad| ==> bad[k] < r.sink.layout.Chunks()
    requires f.first / HASH_WINDOW < |r.winState|
    ensures var bad := Bad(r.sink, f.first, f.payload);
            WindowsStep(r, Reject(r.(sink := Verify(r.sink, f.first, f.payload)), f.first / HASH_WINDOW, bad), f)
  {
    hide Bad;
    hide Charge;
    var bad, w := Bad(r.sink, f.first, f.payload), f.first / HASH_WINDOW;
    BadExact(r.sink, f.first, f.payload);
    assert bad[0] in bad && Mismatch(r.sink, f.first, f.payload, bad[0]);
    ChargeFrame(r.(sink := Verify(r.sink, f.first, f.payload), winState := r.winState[w := Pending]), w, bad);
  }

  lemma ReactWindows(r: Receiver, f: Frame)
    requires Formed(r)
    ensures WindowsStep(r, React(r, f), f)
  {
    hide OnData;
    hide WindowsStep;
    hide Bad;
    hide Verify;
    hide Accept;
    hide Reject;
    if f.Data? {
      DataWindows(r, f);
    } else if f.Hash? && IsWindow(r.Chunks(), f.first, f.count) {
      WindowRange(r.Chunks(), f.first, f.count);
      BadInRange(r.sink, f.first, f.payload);
      if Bad(r.sink, f.first, f.payload) == [] {
        AcceptWindows(r, f);
      } else {
        RejectedWindows(r, f);
      }
    } else {
      if f.Hash? {
        WindowRange(r.Chunks(), f.first, f.count);
      }
      WindowsStay(r, React(r, f), f);
    }
  }

  lemma WindowsStay(r: Receiver, t: Receiver, f: Frame)
    requires Formed(r) && t == r.(root := t.root, fault := t.fault)
    ensures WindowsStep(r, t, f)
  {
  }

  lemma SameWindows(r: Receiver, t: Receiver, u: Receiver, f: Frame)
    requires |r.sink.held| == |r.sink.hashes| && WindowsStep(r, t, f)
    requires u.winState == t.winState && u.winRecv == t.winRecv && u.verified == t.verified
    ensures WindowsStep(r, u, f)
  {
    assert forall w: nat :: NewlyVerified(r, u, w) <==> NewlyVerified(r, t, w);
    forall w: nat | w < |r.winState| ensures WindowStep(r, u, f, w) {
      assert WindowStep(r, t, f, w);
    }
  }

  /** Whatever frame arrives, from whatever host. */
  lemma WindowLaw(r: Receiver, f: Frame)
    requires Formed(r)
    ensures WindowsStep(r, Handle(r, f), f)
  {
    hide React;
    hide Fill;
    ReactWindows(r, f);
    FillFrame(React(r, f));
    SameWindows(r, React(r, f), Handle(r, f), f);
  }

  /** What was rejected is asked for first: the chunks asked for after a HASH that
      rejects, followed by those still queued, are the rejected ones in ascending
      order and then the queue as it was. */
  lemma RejectedFirst(r: Receiver, first: nat, count: nat, hs: seq<byte>)
    requires Formed(r) && r.Chunks() < MAX32 && IsWindow(r.Chunks(), first, count) && r.fault.None?
    requires forall k :: 0 <= k < |r.queue| ==> r.queue[k] < r.Chunks()
    requires first < MAX32 && count < MAX32 && Handle(r, Hash(first, count, hs)).fault.None?
    ensures var t := Handle(r, Hash(first, count, hs));
            r.out <= t.out && Named(t.out[|r.out|..]) + t.queue == Bad(r.sink, first, hs) + r.queue
  {
    hide Bad;
    hide Fill;
    hide Charge;
    WindowRange(r.Chunks(), first, count);
    var w, bad, u := first / HASH_WINDOW, Bad(r.sink, first, hs), React(r, Hash(first, count, hs));
    BadInRange(r.sink, first, hs);
    if bad != [] {
      ChargeFrame(r.(sink := Verify(r.sink, first, hs), winState := r.winState[w := Pending]), w, bad);
    } else {
      assert [] + r.queue == r.queue;
    }
    assert u.out == r.out && u.queue == bad + r.queue;
    FillCoalesces(u, r.Chunks());
  }
}
