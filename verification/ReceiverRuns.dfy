/** The receiver as it runs: fields updated frame by frame over a sink on disk.
    Every method is proved against module Receivers. */
module ReceiverRuns {
  import opened Bytes
  import opened Sums
  import opened Wire
  import opened Store
  import opened Sinks
  import opened Receivers
  import opened Losses
  import opened SinkFiles

  /** What run returns: success, an error of its own, a connection that ended, or
      a root that is not the host's. */
  datatype Ending = Success | Failed(fault: Fault) | ConnectionEnded | RootMismatch

  class ReceiverRun {
    const sink: SinkFile
    var queue: seq<nat>
    var outstanding: int
    var partial: map<nat, Partial>
    var attempts: map<nat, nat>
    var winRecv: seq<int>
    var winState: seq<WinState>
    var verified: int
    var root: Option<seq<byte>>
    var progress: int
    var out: seq<Frame>

    ghost predicate Valid()
      reads this, sink, sink.bitmap
    {
      sink.Valid() && |winRecv| == |winState| == Windows(sink.layout.Chunks()) &&
      forall i :: i in partial ==> i < sink.layout.Chunks() && |partial[i].buf| == sink.layout.Span(i)
    }

    /** The receiver as a value; an error a method returns is the value's fault. */
    ghost function State(): (r: Receiver)
      requires Valid()
      reads this, sink, sink.bitmap, sink.hashes, sink.files
      ensures Formed(r) && r.fault.None?
    {
      Receiver(sink.State(), queue, outstanding, partial, attempts, winRecv, winState, verified, root, progress,
               out, None)
    }

    constructor (s: SinkFile)
      requires s.Valid()
      ensures Valid() && sink == s
    {
      sink := s;
      queue, outstanding, partial, attempts := [], 0, map[], map[];
      winRecv, winState := seq(Windows(s.layout.Chunks()), _ => 0), AllPending(Windows(s.layout.Chunks()));
      verified, root, progress, out := 0, None, 0, [];
    }

    method WriteFrame(f: Frame)
      requires Valid()
      modifies this`out
      ensures Valid() && State() == Send(old(State()), f)
    {
      hide SinkFile.State;
      out := out + [f];
    }

    method RequestHashes(w: nat)
      requires Valid() && w < |winState|
      modifies this`out, this`winState
      ensures Valid() && State() == Receivers.RequestHashes(old(State()), w)
    {
      hide SinkFile.State;
      winState := winState[w := Asked];
      WriteFrame(HashReq(U32(w * HASH_WINDOW), U32(WindowSize(sink.layout.Chunks(), w))));
    }

    /** fill: REQ frames for the front of the queue, coalesced, while fewer than 64 are outstanding. */
    method Fill()
      requires Valid()
      modifies this`queue, this`outstanding, this`out
      ensures Valid() && State() == Receivers.Fill(old(State()))
    {
      hide SinkFile.Sized;
      hide Shaped;
      hide SinkFile.State;
      hide Count;
      hide Opened;
      ghost var before := State();
      while outstanding < IN_FLIGHT && queue != []
        invariant Valid() && Receivers.Fill(State()) == Receivers.Fill(before)
        decreases |queue|
      {
        var first, n := queue[0], 1;
        while n < |queue| && queue[n] == first + n && outstanding + n < IN_FLIGHT
          invariant 0 < n <= |queue| && RunLength(queue, outstanding, n) == RunLength(queue, outstanding, 1)
        {
          n := n + 1;
        }
        ghost var r := State();
        queue := queue[n..];
        outstanding := outstanding + n;
        WriteFrame(Req(U32(first), U32(n)));
        assert State() == FillOne(r);
      }
    }

    method OnData(i: nat, offset: nat, p: seq<byte>) returns (err: Option<Fault>)
      requires Valid()
      modifies this, sink`received, sink`dirty, sink`sidecar, sink.bitmap, sink.hashes, sink.files
      ensures Valid() && State().(fault := err) == Receivers.OnData(old(State()), i, offset, p)
    {
      hide Shaped;
      hide SinkFile.State;
      hide Receivers.Finish;
      hide Count;
      hide Opened;
      hide PartialOf;
      hide Splice;
      if i >= sink.layout.Chunks() {
        return Some(OutOfRange);
      }
      var span := sink.layout.Span(i);
      if offset + |p| > span {
        return Some(ExceedsChunk);
      }
      err := None;
      ghost var before := State();
      var part := Absorb(i, span, offset, p);
      if part.have < span {
        return;
      }
      partial := partial - {i};
      DropAdded(before.partial, i, part);
      FinishDrops(before.(progress := progress), i, part.buf, partial);
      Complete(i, part.buf);
    }

    /** copy(p.buf[offset:], payload), in chunk i's buffer or a new one. */
    method Absorb(i: nat, span: nat, offset: nat, p: seq<byte>) returns (part: Partial)
      requires Valid() && i < sink.layout.Chunks() && span == sink.layout.Span(i) && offset + |p| <= span
      modifies this`partial, this`progress
      ensures var was := PartialOf(old(State()), i, span);
              part == Partial(Splice(was.buf, offset, p), was.have + |p|)
      ensures Valid() && State() == old(State()).(progress := old(progress) + |p|, partial := old(partial)[i := part])
    {
      hide SinkFile.State;
      part := if i in partial then partial[i] else Partial(seq(span, _ => 0), 0);
      part := Partial(Splice(part.buf, offset, p), part.have + |p|);
      partial := partial[i := part];
      progress := progress + |p|;
    }

    /** The rest of onData once chunk i has all its bytes. */
    method Complete(i: nat, buf: seq<byte>)
      requires Valid() && i < sink.layout.Chunks() && |buf| == sink.layout.Span(i) && partial - {i} == partial
      modifies this`outstanding, this`winRecv, this`winState, this`out
      modifies sink`received, sink`dirty, sink`sidecar, sink.bitmap, sink.hashes, sink.files
      ensures Valid() && State() == Receivers.Finish(old(State()), i, buf)
    {
      hide Count;
      hide Opened;
      hide SinkFile.Sized;
      hide Shaped;
      hide SinkFile.State;
      hide Write;
      outstanding := outstanding - 1;
      var ok := sink.WriteChunk(i, buf);
      var w := i / HASH_WINDOW;
      winRecv := winRecv[w := winRecv[w] + 1];
      if winRecv[w] == WindowSize(sink.layout.Chunks(), w) && winState[w] == Pending {
        RequestHashes(w);
      }
    }

    method OnHash(first: nat, count: nat, hs: seq<byte>) returns (err: Option<Fault>)
      requires Valid()
      modifies this, sink`received, sink.bitmap
      ensures Valid() && State().(fault := err) == Receivers.OnHash(old(State()), first, count, hs)
    {
      hide Count;
      hide Opened;
      hide Cleared;
      hide Shaped;
      hide SinkFile.State;
      hide Bad;
      hide Charge;
      err := None;
      var n := sink.layout.Chunks();
      if n == 0 {
        return;
      }
      var w := first / HASH_WINDOW;
      if first % HASH_WINDOW != 0 || w >= Windows(n) || count != WindowSize(n, w) {
        return Some(HashRange);
      }
      BadInRange(sink.State(), first, hs);
      var bad := sink.Verify(first, hs);
      if bad == [] {
        if winState[w] != Verified {
          winState := winState[w := Verified];
          verified := verified + 1;
        }
        return;
      }
      winState := winState[w := Pending];
      err := ChargeAll(w, bad);
      if err.None? {
        queue := bad + queue;
      }
    }

    /** The loop over the rejected chunks. */
    method ChargeAll(w: nat, bad: seq<nat>) returns (err: Option<Fault>)
      requires Valid() && w < |winRecv| && forall k :: 0 <= k < |bad| ==> bad[k] < sink.layout.Chunks()
      modifies this`attempts, this`progress, this`winRecv
      ensures Valid() && State().(fault := err) == Charge(old(State()), w, bad)
    {
      hide SinkFile.Sized;
      hide Shaped;
      hide SinkFile.State;
      hide Charge;
      hide Count;
      hide Opened;
      err := None;
      ghost var before := State();
      var k := 0;
      assert bad[0..] == bad;
      while k < |bad|
        invariant Valid() && 0 <= k <= |bad| && w < |winRecv|
        invariant Charge(State(), w, bad[k..]) == Charge(before, w, bad)
      {
        var i := bad[k];
        ChargeUnfolds(State(), w, bad, k);
        attempts := attempts[i := (if i in attempts then attempts[i] else 0) + 1];
        if attempts[i] > MAX_ATTEMPTS {
          return Some(TooManyAttempts(i));
        }
        progress := progress - sink.layout.Span(i);
        winRecv := winRecv[w := winRecv[w] - 1];
        k := k + 1;
      }
      ChargeNothing(State(), w);
    }

    /** run's setup: what is missing is queued, complete windows are asked about. */
    method Begin()
      requires Valid()
      modifies this
      ensures Valid() && State() == Start(sink.State())
    {
      hide SinkFile.State;
      hide Receivers.Fill;
      hide Receivers.Begin;
      hide AskComplete;
      Reset();
      AskAll();
      if sink.layout.Chunks() == 0 {
        WriteFrame(HashReq(0, 0));
      }
      Fill();
    }

    /** The fields as run first sets them. */
    method Reset()
      requires Valid()
      modifies this
      ensures Valid() && State() == Receivers.Begin(sink.State())
    {
      hide SinkFile.State;
      hide Sinks.Missing;
      hide Sinks.ReceivedBytes;
      hide WindowCounts;
      hide AllPending;
      hide ReceiverRun.State;
      var missing := sink.Missing();
      var bytes := sink.ReceivedBytes();
      var counts := CountWindows();
      SetFields(missing, bytes, counts);
    }

    method SetFields(missing: seq<nat>, bytes: int, counts: seq<int>)
      requires Valid() && |counts| == Windows(sink.layout.Chunks())
      modifies this
      ensures Valid()
      ensures State() == Receiver(sink.State(), missing, 0, map[], map[], counts, AllPending(|counts|), 0, None,
                                  bytes, [], None)
    {
      hide SinkFile.State;
      hide AllPending;
      hide Windows;
      hide SinkFile.Sized;
      hide SinkFile.Valid;
      hide Shaped;
      queue, outstanding, partial, attempts := missing, 0, map[], map[];
      winRecv, winState, verified, root := counts, AllPending(|counts|), 0, None;
      progress, out := bytes, [];
    }

    /** The held chunks of each window. */
    method CountWindows() returns (counts: seq<int>)
      requires sink.Valid()
      ensures counts == WindowCounts(sink.State().held)
    {
      var n := sink.layout.Chunks();
      ghost var held := sink.Held();
      counts := seq(Windows(n), _ => 0);
      for i := 0 to n
        invariant held == sink.Held() && |counts| == Windows(n)
        invariant forall w: nat :: w < Windows(n) ==> counts[w] == Total(i, HeldIn(held, w))
      {
        var h := sink.Has(i);
        if h {
          counts := counts[i / HASH_WINDOW := counts[i / HASH_WINDOW] + 1];
        }
      }
      assert forall w: nat :: w < Windows(n) ==> counts[w] == HeldInWindow(held, w);
    }

    method AskAll()
      requires Valid()
      modifies this`out, this`winState
      ensures Valid() && State() == AskComplete(old(State()), 0)
    {
      hide SinkFile.State;
      ghost var before := State();
      var w := 0;
      while w < |winState|
        invariant Valid() && 0 <= w <= |winState| && AskComplete(State(), w) == AskComplete(before, 0)
        decreases |winRecv| - w
      {
        if winRecv[w] == WindowSize(sink.layout.Chunks(), w) {
          RequestHashes(w);
        }
        w := w + 1;
      }
    }

    method IsFinished() returns (f: bool)
      requires Valid()
      ensures f == Finished(State())
    {
      var complete := sink.Complete();
      f := complete && verified == Windows(sink.layout.Chunks()) && root.Some?;
    }

    /** One turn of run's loop. */
    method Turn(f: Frame) returns (err: Option<Fault>)
      requires Valid()
      modifies this, sink`received, sink`dirty, sink`sidecar, sink.bitmap, sink.hashes, sink.files
      ensures Valid() && State().(fault := err) == Handle(old(State()), f)
    {
      hide SinkFile.Sized;
      hide Shaped;
      hide SinkFile.State;
      hide Receivers.Fill;
      hide Receivers.OnData;
      hide Receivers.OnHash;
      err := None;
      match f {
        case Data(i, offset, p) => err := OnData(i, offset, p);
        case Hash(first, count, hs) => err := OnHash(first, count, hs);
        case Done(r) => root := Some(r);
        case Error(code, msg) => err := Some(HostError(code, msg));
        case _ =>
      }
      if err.None? {
        Fill();
      }
    }

    /** run over the frames that arrive until the connection ends. Besides the
        exact final state: from records that can be trusted, in particular from
        ones that match the files, a success under the source's root means the
        source's bytes, chunk by chunk and file by file, whatever the frames were. */
    method Run(frames: seq<Frame>) returns (e: Ending)
      requires Valid()
      modifies this, sink`received, sink`dirty, sink`sidecar, sink.bitmap, sink.hashes, sink.files
      ensures Valid()
      ensures var r := RunFrom(old(sink.State()), frames);
              State() == r.(fault := None) &&
              (e.Failed? <==> r.fault.Some?) && (e.Failed? ==> e.fault == r.fault.value) &&
              (e == Success <==> r.fault.None? && Succeeds(r)) &&
              (e == ConnectionEnded <==> r.fault.None? && !Finished(r))
      ensures e == Success ==>
                forall src :: FitsChunks(sink.layout, src) && Trusts(old(sink.State()), src) &&
                              root == Some(Sha256(Flatten(Digests(src)))) ==>
                  SameOrCollision(sink.Disk(), sink.Hashes(), src)
      ensures e == Success ==>
                forall srcFiles :: Fits(sink.layout, srcFiles) && TrustsFiles(old(sink.State()), srcFiles) &&
                                   root == Some(Sha256(Flatten(Digests(ChunksOf(sink.layout, srcFiles))))) ==>
                  SameFilesOrCollision(sink.layout, Contents(sink.files), sink.Hashes(), srcFiles)
      ensures LossBounded(old(sink.State())) ==> LossBounded(sink.State()) && sink.sidecar.Some?
    {
      ghost var s := sink.State();
      e := Loop(frames);
      if LossBounded(s) {
        AnyHostLoss(s, frames);
        assert sink.State() == RunFrom(s, frames).sink;
      }
      if e == Success {
        forall src | FitsChunks(sink.layout, src) && Trusts(s, src) && root == Some(Sha256(Flatten(Digests(src))))
          ensures SameOrCollision(sink.Disk(), sink.Hashes(), src)
        {
          AnyHostSafe(s, frames, src);
          assert sink.State() == RunFrom(s, frames).sink;
        }
        forall srcFiles | Fits(sink.layout, srcFiles) && TrustsFiles(s, srcFiles) &&
                          root == Some(Sha256(Flatten(Digests(ChunksOf(sink.layout, srcFiles)))))
          ensures SameFilesOrCollision(sink.layout, Contents(sink.files), sink.Hashes(), srcFiles)
        {
          TrustedChunks(s, srcFiles);
          assert sink.Disk() == ChunksOf(sink.layout, Contents(sink.files));
          SameFiles(sink.layout, Contents(sink.files), sink.Hashes(), srcFiles);
        }
      }
    }

    method Loop(frames: seq<Frame>) returns (e: Ending)
      requires Valid()
      modifies this, sink`received, sink`dirty, sink`sidecar, sink.bitmap, sink.hashes, sink.files
      ensures Valid()
      ensures var r := RunFrom(old(sink.State()), frames);
              State() == r.(fault := None) &&
              (e.Failed? <==> r.fault.Some?) && (e.Failed? ==> e.fault == r.fault.value) &&
              (e == Success <==> r.fault.None? && Succeeds(r)) &&
              (e == ConnectionEnded <==> r.fault.None? && !Finished(r))
    {
      hide SinkFile.State;
      hide Handle;
      hide Start;
      hide Count;
      hide Opened;
      StartFormed(sink.State());
      ghost var end := RunFrom(sink.State(), frames);
      Begin();
      var k := 0;
      assert frames[0..] == frames;
      var finished := IsFinished();
      while !finished
        invariant Valid() && 0 <= k <= |frames| && finished == Finished(State())
        invariant RunOn(State(), frames[k..]) == end
        decreases |frames| - k, !finished
      {
        if k == |frames| {
          return ConnectionEnded;
        }
        assert frames[k..][1..] == frames[k + 1..];
        HandleKeeps(State(), frames[k]);
        var err := Turn(frames[k]);
        k := k + 1;
        if err.Some? {
          return Failed(err.value);
        }
        finished := IsFinished();
      }
      var mine := sink.Root();
      e := if mine == root.value then Success else RootMismatch;
    }
  }

  /** The records match the files, or at least those with the source's hash do. */
  ghost predicate TrustsFiles(s: Sink, srcFiles: seq<seq<byte>>)
    requires s.layout.Valid() && Fits(s.layout, srcFiles)
  {
    Recorded(s) || Trusts(s, ChunksOf(s.layout, srcFiles))
  }

  lemma TrustedChunks(s: Sink, srcFiles: seq<seq<byte>>)
    requires Shaped(s) && Fits(s.layout, srcFiles) && TrustsFiles(s, srcFiles)
    ensures FitsChunks(s.layout, ChunksOf(s.layout, srcFiles)) && Trusts(s, ChunksOf(s.layout, srcFiles))
  {
    ChunksOfFit(s.layout, srcFiles);
    if Recorded(s) {
      RecordedTrusts(s, ChunksOf(s.layout, srcFiles));
    }
  }

  lemma DropAdded(partial: map<nat, Partial>, i: nat, part: Partial)
    ensures partial[i := part] - {i} == partial - {i}
    ensures partial - {i} - {i} == partial - {i}
  {
  }

  lemma FinishDrops(r: Receiver, i: nat, buf: seq<byte>, partial: map<nat, Partial>)
    requires Formed(r) && i < r.Chunks() && partial - {i} == r.partial - {i}
    ensures Receivers.Finish(r.(partial := partial), i, buf) == Receivers.Finish(r, i, buf)
  {
  }

  lemma ChargeUnfolds(r: Receiver, w: nat, bad: seq<nat>, k: nat)
    requires w < |r.winRecv| && r.sink.layout.chunk > 0 && k < |bad|
    requires forall k :: 0 <= k < |bad| ==> bad[k] < r.sink.layout.Chunks()
    ensures var i := bad[k];
            var s := r.(attempts := r.attempts[i := r.Attempts(i) + 1]);
            Charge(r, w, bad[k..]) ==
            if s.attempts[i] > MAX_ATTEMPTS then s.(fault := Some(TooManyAttempts(i)))
            else Charge(s.(progress := s.progress - s.sink.layout.Span(i), winRecv := s.winRecv[w := s.winRecv[w] - 1]),
                        w, bad[k + 1..])
  {
    assert bad[k..][1..] == bad[k + 1..];
  }

  lemma ChargeNothing(r: Receiver, w: nat)
    requires w < |r.winRecv| && r.sink.layout.chunk > 0
    ensures Charge(r, w, []) == r
  {
  }
}
