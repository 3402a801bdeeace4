/** What a session with a cooperative host achieves: a partition of the chunks at
    all times, an end to every run, and success exactly when the last chunk is
    asked for. */
module Theorems {
  import opened Bytes
  import opened Sums
  import opened Wire
  import opened WireIO
  import opened Sinks
  import opened Receivers
  import opened Hosts
  import opened Network
  import opened Invariant
  import opened WindowFacts

  // ----- partition

  ghost function QueuedSet(s: Net): set<nat> {
    set i: nat | i < s.r.Chunks() && i in s.r.queue
  }

  /** Chunks asked for and not yet written. */
  ghost function FlightSet(s: Net): set<nat> {
    set i: nat | i < s.r.Chunks() && (Requested(s.r.out, i) > 0 || Flying(s.h.out, i) + Have(s.r.partial, i) > 0)
  }

  ghost function HeldSet(s: Net): set<nat> {
    set i: nat | i < s.r.Chunks() && s.r.sink.held[i]
  }

  lemma {:induction false} QueuedIff(queue: seq<nat>, i: nat)
    ensures i in queue <==> Queued(queue, i) > 0
  {
    if queue != [] {
      QueuedIff(queue[1..], i);
      assert queue == [queue[0]] + queue[1..];
    }
  }

  lemma {:induction false} OnceDistinct(queue: seq<nat>, a: nat, b: nat)
    requires a < b < |queue| && queue[a] == queue[b]
    ensures Queued(queue, queue[a]) >= 2
  {
    if a == 0 {
      SumMember<nat>(queue[1..], QueueWeight(queue[0]), queue[b]);
      assert queue[1..][b - 1] == queue[b];
    } else {
      OnceDistinct(queue[1..], a - 1, b - 1);
    }
  }

  lemma SizeWithout(x: set<nat>, k: nat)
    ensures |x| == |x - {k}| + if k in x then 1 else 0
  {
    if k in x {
      assert x == (x - {k}) + {k};
    } else {
      assert x == x - {k};
    }
  }

  lemma {:induction false} TotalIsSize(n: nat, g: nat -> int, x: set<nat>)
    requires forall i: nat :: i < n ==> g(i) == if i in x then 1 else 0
    requires forall i :: i in x ==> i < n
    ensures Total(n, g) == |x|
  {
    if n == 0 {
      assert x == {};
    } else {
      var y := x - {n - 1};
      SizeWithout(x, n - 1);
      TotalIsSize(n - 1, g, y);
    }
  }

  /** Each chunk is in exactly one of the three sets. */
  lemma InOneSet(c: Setup, s: Net, i: nat)
    requires Inv(c, s) && i < s.r.Chunks()
    ensures (i in QueuedSet(s) || i in FlightSet(s) || i in HeldSet(s)) &&
            !(i in QueuedSet(s) && i in FlightSet(s)) && !(i in QueuedSet(s) && i in HeldSet(s)) &&
            !(i in FlightSet(s) && i in HeldSet(s))
    ensures Queued(s.r.queue, i) <= 1
    ensures i in FlightSet(s) <==> FlightAt(s.r.out, s.h.out, s.r.partial)(i) == 1
  {
    QueuedIff(s.r.queue, i);
    assert ChunkOk(s.r.sink, s.r.queue, s.r.out, s.h.out, s.r.partial, i);
  }

  lemma QueueDistinct(c: Setup, s: Net)
    requires Inv(c, s)
    ensures Distinct(s.r.queue)
  {
    forall a, b | 0 <= a < b < |s.r.queue| ensures s.r.queue[a] != s.r.queue[b] {
      InOneSet(c, s, s.r.queue[a]);
      if s.r.queue[a] == s.r.queue[b] {
        OnceDistinct(s.r.queue, a, b);
      }
    }
  }

  lemma OutstandingIsFlight(c: Setup, s: Net)
    requires Inv(c, s)
    ensures s.r.outstanding == |FlightSet(s)|
  {
    var g := FlightAt(s.r.out, s.h.out, s.r.partial);
    forall i: nat | i < s.r.Chunks() ensures g(i) == if i in FlightSet(s) then 1 else 0 {
      InOneSet(c, s, i);
    }
    TotalIsSize(s.r.Chunks(), g, FlightSet(s));
  }

  lemma SetsCover(c: Setup, s: Net)
    requires Inv(c, s)
    ensures forall i: nat :: i < s.r.Chunks() <==> i in QueuedSet(s) || i in FlightSet(s) || i in HeldSet(s)
    ensures forall i: nat :: i in s.r.queue <==> i in QueuedSet(s)
  {
    forall i: nat | i < s.r.Chunks() ensures i in QueuedSet(s) || i in FlightSet(s) || i in HeldSet(s) {
      InOneSet(c, s, i);
    }
  }

  lemma SetsDisjoint(c: Setup, s: Net)
    requires Inv(c, s)
    ensures QueuedSet(s) !! FlightSet(s) && QueuedSet(s) !! HeldSet(s) && FlightSet(s) !! HeldSet(s)
  {
    forall i: nat | i < s.r.Chunks()
      ensures !(i in QueuedSet(s) && i in FlightSet(s)) && !(i in QueuedSet(s) && i in HeldSet(s)) &&
              !(i in FlightSet(s) && i in HeldSet(s))
    {
      InOneSet(c, s, i);
    }
  }

  /** In every reachable state the queue, the chunks in flight and the held chunks
      are pairwise disjoint and together are all the chunks; the queue repeats
      nothing; outstanding counts the chunks in flight, never above 64, and is 64
      whenever something is still queued. */
  lemma Partition(c: Setup, s: Net)
    requires Inv(c, s)
    ensures forall i: nat :: i < s.r.Chunks() <==> i in QueuedSet(s) || i in FlightSet(s) || i in HeldSet(s)
    ensures QueuedSet(s) !! FlightSet(s) && QueuedSet(s) !! HeldSet(s) && FlightSet(s) !! HeldSet(s)
    ensures Distinct(s.r.queue) && forall i: nat :: i in s.r.queue <==> i in QueuedSet(s)
    ensures s.r.outstanding == |FlightSet(s)| <= 64 && (s.r.queue != [] ==> s.r.outstanding == 64)
  {
    hide QueuedSet;
    hide FlightSet;
    hide HeldSet;
    SetsCover(c, s);
    SetsDisjoint(c, s);
    QueueDistinct(c, s);
    OutstandingIsFlight(c, s);
  }

  /** No chunk is ever asked for more than four times in a session. */
  lemma AskedAtMostFourTimes(c: Setup, s: Net, i: nat)
    requires Inv(c, s) && i < s.r.Chunks()
    ensures s.served[i] + Requested(s.r.out, i) <= 4
  {
    assert TryOk(c.start, s.r.queue, s.r.out, s.r.attempts, s.served, i);
  }

  /** The progress shown is the bytes on disk plus the bytes in partial buffers,
      and with every chunk held it is the size. */
  lemma BytesConserved(c: Setup, s: Net)
    requires Inv(c, s)
    ensures s.r.progress == ReceivedBytes(s.r.sink) + Total(s.r.Chunks(), HaveAt(s.r.partial))
    ensures Complete(s.r.sink) ==> s.r.progress == c.start.layout.size
  {
    if Complete(s.r.sink) {
      CompleteIff(s.r.sink);
      ReceivedBytesComplete(s.r.sink);
      var zero := (i: nat) => 0;
      forall i: nat | i < s.r.Chunks() ensures HaveAt(s.r.partial)(i) == zero(i) {
        assert ChunkOk(s.r.sink, s.r.queue, s.r.out, s.h.out, s.r.partial, i);
      }
      TotalSame(s.r.Chunks(), HaveAt(s.r.partial), zero);
      TotalConst(s.r.Chunks(), zero, 0);
    }
  }

  // ----- windows

  /** verified counts the verified windows, so it equals their number exactly when all are. */
  lemma AllWindowsVerified(states: seq<WinState>)
    ensures Total(|states|, VerifiedAt(states)) == |states| <==> forall w: nat :: w < |states| ==> states[w] == Verified
  {
    var one := (w: nat) => 1;
    TotalConst(|states|, one, 1);
    TotalBounds(|states|, VerifiedAt(states), one);
    if forall w: nat :: w < |states| ==> states[w] == Verified {
      TotalSame(|states|, VerifiedAt(states), one);
    } else {
      var w: nat :| w < |states| && states[w] != Verified;
      assert VerifiedAt(states)(w) != one(w);
    }
  }

  /** Once all is verified every recorded hash is the host's. */
  lemma VerifiedHashes(c: Setup, s: Net)
    requires Inv(c, s) && AllVerified(s.r)
    ensures forall i: nat :: i < s.r.Chunks() ==>
              s.r.sink.held[i] && i in s.h.cache && s.r.sink.hashes[i] == s.h.cache[i]
  {
    AllWindowsVerified(s.r.winState);
    CompleteIff(s.r.sink);
    forall i: nat | i < s.r.Chunks() ensures i in s.h.cache && s.r.sink.hashes[i] == s.h.cache[i] {
      WindowOfChunk(s.r.Chunks(), i);
      var w := i / HASH_WINDOW;
      assert WindowOk(s.r.sink, s.r.winRecv, s.r.winState, s.r.out, s.h.out, s.answered, s.h.cache, w);
      assert HashesAgree(s.r.sink, s.h.cache, w);
    }
  }

  /** A finished run succeeds: against a cooperative host the root never disagrees,
      and the recorded hashes are all the host's. */
  lemma FinishedSucceeds(c: Setup, s: Net)
    requires Inv(c, s) && Finished(s.r)
    ensures Succeeds(s.r)
    ensures AllKnown(s.h.cache, s.r.Chunks()) && s.r.sink.hashes == CachedRange(s.h.cache, 0, s.r.Chunks())
    ensures s.r.progress == c.start.layout.size
  {
    VerifiedHashes(c, s);
    var ds := CachedRange(s.h.cache, 0, s.r.Chunks());
    forall k: nat | k < |ds| ensures ds[k] == s.r.sink.hashes[k] {
      assert ds[k] == s.h.cache[0 + k];
    }
    assert s.r.sink.hashes == ds;
    BytesConserved(c, s);
  }

  // ----- progress

  ghost predicate Quiet(s: Net) {
    s.r.out == [] && s.h.out == []
  }

  /** With nothing in transit, every chunk is held and every window verified. */
  lemma QuietVerified(c: Setup, s: Net)
    requires Inv(c, s) && Quiet(s)
    ensures AllVerified(s.r) && forall w: nat :: w < |s.r.winState| ==> w in s.answered
  {
    var n, zero := s.r.Chunks(), (i: nat) => 0;
    forall i: nat | i < n ensures FlightAt([], [], s.r.partial)(i) == 0 {
      assert ChunkOk(s.r.sink, s.r.queue, s.r.out, s.h.out, s.r.partial, i);
    }
    TotalConst(n, zero, 0);
    TotalSame(n, FlightAt([], [], s.r.partial), zero);
    assert s.r.queue == [];
    forall i: nat | i < n ensures s.r.sink.held[i] {
      assert ChunkOk(s.r.sink, s.r.queue, s.r.out, s.h.out, s.r.partial, i);
    }
    CompleteIff(s.r.sink);
    forall w: nat | w < |s.r.winState| ensures s.r.winState[w] == Verified && w in s.answered {
      assert WindowOk(s.r.sink, s.r.winRecv, s.r.winState, s.r.out, s.h.out, s.answered, s.h.cache, w);
      WindowFull(s.r.sink.held, w);
    }
    AllWindowsVerified(s.r.winState);
  }

  /** The last chunk has to be fetched in this session: it was missing at the
      start, or recorded with a hash that is not the host's. */
  ghost predicate LastFetched(c: Setup, cache: map<nat, Digest>) {
    var n := |c.start.held|;
    n > 0 && |c.start.hashes| == n &&
    (!c.start.held[n - 1] || (n - 1 in cache && c.start.hashes[n - 1] != cache[n - 1]))
  }

  /** Joint progress, with its exact condition. When nothing is in transit any
      more the receiver has verified everything; it is finished if and only if
      there was nothing to fetch or the last chunk was fetched this session.
      Otherwise the host never sends DONE and the receiver waits in vain. */
  lemma QuietOutcome(c: Setup, s: Net)
    requires Inv(c, s) && Quiet(s)
    ensures AllVerified(s.r)
    ensures Finished(s.r) <==> |c.start.held| == 0 || LastFetched(c, s.h.cache)
  {
    QuietVerified(c, s);
    VerifiedHashes(c, s);
    var n := s.r.Chunks();
    if n > 0 {
      assert TryOk(c.start, s.r.queue, s.r.out, s.r.attempts, s.served, n - 1);
      assert OriginOk(c.start, s.r.sink, s.r.attempts, s.h.cache, n - 1);
      QuietServed(c, s);
    }
  }

  lemma QuietServed(c: Setup, s: Net)
    requires Inv(c, s) && Quiet(s) && s.r.Chunks() > 0
    ensures s.r.root.Some? <==> s.served[s.r.Chunks() - 1] > 0
    ensures Queued(s.r.queue, s.r.Chunks() - 1) == 0
  {
    var n := s.r.Chunks();
    QuietVerified(c, s);
    CompleteIff(s.r.sink);
    assert ChunkOk(s.r.sink, s.r.queue, s.r.out, s.h.out, s.r.partial, n - 1);
    DoneNeedsLast(c, s);
  }

  lemma DoneNeedsLast(c: Setup, s: Net)
    requires Inv(c, s) && Quiet(s) && s.r.Chunks() > 0
    ensures s.h.doneSent ==> s.h.lastRequested
  {
  }

  /** Once the receiver has verified everything, the host has sent DONE if and only
      if the last chunk was fetched this session (or there was nothing to fetch). */
  lemma VerifiedDone(c: Setup, s: Net)
    requires Inv(c, s) && AllVerified(s.r) && s.r.Chunks() > 0
    ensures s.h.doneSent <==> LastFetched(c, s.h.cache)
  {
    var n := s.r.Chunks();
    VerifiedHashes(c, s);
    AllWindowsVerified(s.r.winState);
    forall w: nat | w < |s.r.winState| ensures w in s.answered {
      assert WindowOk(s.r.sink, s.r.winRecv, s.r.winState, s.r.out, s.h.out, s.answered, s.h.cache, w);
    }
    assert ChunkOk(s.r.sink, s.r.queue, s.r.out, s.h.out, s.r.partial, n - 1);
    assert TryOk(c.start, s.r.queue, s.r.out, s.r.attempts, s.served, n - 1);
    assert OriginOk(c.start, s.r.sink, s.r.attempts, s.h.cache, n - 1);
  }

  // ----- windows, contents and frames, read off the invariant

  /** The window counters say what they are meant to: a pending window lacks a chunk
      and has nothing in transit; an asked one is complete with exactly one request
      or answer in transit; a verified one is complete with the host's hashes, with
      no request, no answer and no DATA for it in transit. That it stays so is
      Permanence.VerifiedForGood. */
  lemma WindowMeaning(c: Setup, s: Net, w: nat)
    requires Inv(c, s) && w < |s.r.winState|
    ensures s.r.winRecv[w] == HeldInWindow(s.r.sink.held, w)
    ensures s.r.winState[w] == Pending ==>
              Asks(s.r.out, s.h.out, w) == 0 &&
              exists i: nat :: i < s.r.Chunks() && i / HASH_WINDOW == w && !s.r.sink.held[i]
    ensures s.r.winState[w] == Asked ==> Asks(s.r.out, s.h.out, w) == 1
    ensures s.r.winState[w] != Pending ==>
              forall i: nat :: i < s.r.Chunks() && i / HASH_WINDOW == w ==>
                s.r.sink.held[i] && Flying(s.h.out, i) == 0 && Requested(s.r.out, i) == 0 && i !in s.r.queue
    ensures s.r.winState[w] == Verified ==>
              Asks(s.r.out, s.h.out, w) == 0 &&
              forall i: nat :: i < s.r.Chunks() && i / HASH_WINDOW == w ==>
                i in s.h.cache && s.r.sink.hashes[i] == s.h.cache[i]
  {
    assert WindowOk(s.r.sink, s.r.winRecv, s.r.winState, s.r.out, s.h.out, s.answered, s.h.cache, w);
    WindowFull(s.r.sink.held, w);
    if s.r.winState[w] != Pending {
      forall i: nat | i < s.r.Chunks() && i / HASH_WINDOW == w
        ensures s.r.sink.held[i] && Flying(s.h.out, i) == 0 && Requested(s.r.out, i) == 0 && i !in s.r.queue
      {
        assert ChunkOk(s.r.sink, s.r.queue, s.r.out, s.h.out, s.r.partial, i);
        QueuedIff(s.r.queue, i);
      }
    }
  }

  /** Reassembly: whatever the order in which fragments arrived, a chunk written in
      this session is, byte for byte, what it was last served with, under its hash. */
  lemma Reassembled(c: Setup, s: Net, i: nat)
    requires Inv(c, s) && i < s.r.Chunks() && s.r.sink.held[i] && s.served[i] > 0
    ensures s.r.sink.disk[i] == s.wire[i] && s.r.sink.hashes[i] == Sha256(s.wire[i])
  {
    assert ContentOk(s.r.sink, s.r.partial, s.h.out, s.served, s.wire, i);
  }

  /** Read from a stream, followed by anything, or decoded as a message, the encoding of f gives f. */
  ghost predicate Survives(f: Frame) {
    WellFormed(f) && Decoded(Encoding(f)) == Ok(f) &&
    forall more :: Parse(Encoding(f) + more) == Parsed(f, |Encoding(f)|)
  }

  lemma WellFormedSurvives(f: Frame)
    requires WellFormed(f)
    ensures Survives(f)
  {
    DecodeEncoding(f);
    forall more ensures Parse(Encoding(f) + more) == Parsed(f, |Encoding(f)|) {
      ParseEncoding(f, more);
    }
  }

  /** Every frame either side has in transit survives the codec, on a stream and as a message. */
  lemma FramesSurvive(c: Setup, s: Net)
    requires Inv(c, s)
    ensures forall k :: 0 <= k < |s.r.out| ==> Survives(s.r.out[k])
    ensures forall k :: 0 <= k < |s.h.out| ==> Survives(s.h.out[k])
  {
    hide Survives;
    FramesWellFormed(c, s);
    forall k | 0 <= k < |s.r.out| ensures Survives(s.r.out[k]) {
      WellFormedSurvives(s.r.out[k]);
    }
    forall k | 0 <= k < |s.h.out| ensures Survives(s.h.out[k]) {
      WellFormedSurvives(s.h.out[k]);
    }
  }

  lemma FramesWellFormed(c: Setup, s: Net)
    requires Inv(c, s)
    ensures forall k :: 0 <= k < |s.r.out| ==> WellFormed(s.r.out[k])
    ensures forall k :: 0 <= k < |s.h.out| ==> WellFormed(s.h.out[k])
  {
    forall k | 0 <= k < |s.r.out| ensures WellFormed(s.r.out[k]) {
      assert AskOk(s.r.Chunks(), s.r.out[k]);
    }
    forall k | 0 <= k < |s.h.out| ensures WellFormed(s.h.out[k]) {
      assert ReplyOk(c.start.layout, s.h.cache, s.h.out[k]);
      if s.h.out[k].Hash? && s.r.Chunks() > 0 {
        WindowStart(s.r.Chunks(), s.h.out[k].first / HASH_WINDOW);
      }
    }
  }
}
