/** Sessions over a source that does not change: no run faults, and what is
    recorded with the source's hash has the source's bytes. */
module Honest {
  import opened Bytes
  import opened Sums
  import opened Wire
  import opened Sinks
  import opened Receivers
  import opened Hosts
  import opened Network
  import opened Invariant
  import opened StepData
  import opened StepComplete
  import opened StepHash
  import opened StepPeer
  import opened StepServe
  import opened Sessions
  import opened Theorems

  /** The cached hashes are the source's. */
  ghost predicate HonestCache(src: seq<seq<byte>>, cache: map<nat, Digest>) {
    forall i: nat :: i < |src| && i in cache ==> cache[i] == Sha256(src[i])
  }

  /** Reads give the source's bytes. */
  ghost predicate HonestLabel(src: seq<seq<byte>>, a: Label) {
    match a
    case HostTakes(_, bytes) => bytes == src
    case PeerTakes(_) => true
    case Elsewhere(i, d) => i < |src| && d == src[i]
  }

  /** The sink in memory and the sidecar both deserve trust, and what the sidecar
      has good the memory has good too, so it is not asked for again. */
  ghost predicate SinkTrusted(s: Sink, src: seq<seq<byte>>) {
    Trusts(s, src) &&
    (s.saved.Some? ==>
       forall i: nat :: Good(s.saved.value.held, s.saved.value.hashes, src, i) ==> Good(s.held, s.hashes, src, i))
  }

  ghost predicate HonestInv(c: Setup, s: Net, src: seq<seq<byte>>) {
    Inv(c, s) && |src| == s.r.Chunks() && HonestCache(src, s.h.cache) && SinkTrusted(s.r.sink, src) &&
    (forall i: nat :: i < |src| && s.served[i] > 0 ==> s.wire[i] == src[i]) &&
    (forall i: nat :: i < |src| ==> Tried(s.r.attempts, i) <= if c.start.held[i] then 1 else 0)
  }

  // ----- the sink's steps

  /** Writing the source's bytes for a chunk that is not recorded. */
  lemma WriteTrusted(s: Sink, src: seq<seq<byte>>, i: nat)
    requires Shaped(s) && |src| == |s.held| && i < |src| && !s.held[i] && SinkTrusted(s, src)
    ensures SinkTrusted(Write(s, i, src[i]), src)
  {
    var t := Write(s, i, src[i]);
    forall j: nat | Good(s.held, s.hashes, src, j) ensures Good(t.held, t.hashes, src, j) {
    }
    WriteTrusts(s, i, src[i], src);
  }

  /** Rejecting chunks whose recorded hash is not the source's. */
  lemma RejectTrusted(s: Sink, src: seq<seq<byte>>, bad: seq<nat>)
    requires Shaped(s) && |src| == |s.held| && SinkTrusted(s, src)
    requires forall i: nat :: i in bad ==> i < |src| && s.hashes[i] != Sha256(src[i])
    ensures SinkTrusted(Rejected(s, bad), src)
  {
    var t := Rejected(s, bad);
    forall j: nat ensures Good(t.held, t.hashes, src, j) <==> Good(s.held, s.hashes, src, j) {
    }
  }

  // ----- the session's steps

  /** A chunk rejected over an unchanged source was held from the start and never asked for. */
  lemma RejectedWasStale(c: Setup, s: Net, src: seq<seq<byte>>, i: nat)
    requires HonestInv(c, s, src) && i < |src| && s.r.sink.held[i] && i in s.h.cache
    requires s.r.sink.hashes[i] != s.h.cache[i]
    ensures c.start.held[i] && Tried(s.r.attempts, i) == 0
  {
    assert ContentOk(s.r.sink, s.r.partial, s.h.out, s.served, s.wire, i);
    assert ChunkOk(s.r.sink, s.r.queue, s.r.out, s.h.out, s.r.partial, i);
    assert TryOk(c.start, s.r.queue, s.r.out, s.r.attempts, s.served, i);
  }

  /** What a step of the receiver may do to sink and retry counts over an unchanged source. */
  ghost predicate PeerHonest(c: Setup, r: Receiver, src: seq<seq<byte>>) {
    |src| == |c.start.held| && SinkTrusted(r.sink, src) &&
    forall i: nat :: i < |src| ==> Tried(r.attempts, i) <= if c.start.held[i] then 1 else 0
  }

  lemma DataHonest(c: Setup, s: Net, src: seq<seq<byte>>, k: nat)
    requires HonestInv(c, s, src) && k < |s.h.out| && s.h.out[k].Data?
    ensures PeerHonest(c, PeerReacts(s, k).r, src)
  {
    hide React;
    var f := s.h.out[k];
    var i := f.index;
    DataArrives(c, s, k);
    ReactsToData(c, s, k, i, f);
    DataStep(c, s, k);
    TakeWeights(s.h.out, k, i);
    assert ContentOk(s.r.sink, s.r.partial, s.h.out, s.served, s.wire, i);
    WriteTrusted(s.r.sink, src, i);
  }

  lemma HashHonest(c: Setup, s: Net, src: seq<seq<byte>>, k: nat)
    requires HonestInv(c, s, src) && k < |s.h.out| && s.h.out[k].Hash?
    ensures PeerReacts(s, k).r.fault.None? && PeerHonest(c, PeerReacts(s, k).r, src)
  {
    hide React;
    hide Bad;
    var f := s.h.out[k];
    if s.r.Chunks() == 0 {
      EmptyHashStep(c, s, k);
    } else {
      var w := HashArrives(c, s, k);
      var bad := Bad(s.r.sink, f.first, f.payload);
      ReactsToHash(s, k, w, f);
      if bad == [] {
        assert Cleared(s.r.sink.held, []) == s.r.sink.held;
      } else {
        BadRejects(s.r.sink, s.h.cache, w, f.first, f.count);
        RejectHonest(c, s, src, w, bad);
      }
    }
  }

  lemma RejectHonest(c: Setup, s: Net, src: seq<seq<byte>>, w: nat, bad: seq<nat>)
    requires HonestInv(c, s, src) && Rejects(s.r.sink, s.h.cache, w, bad)
    ensures var t := Reject(s.r.(sink := Rejected(s.r.sink, bad)), w, bad); t.fault.None? && PeerHonest(c, t, src)
  {
    hide Reject;
    forall i: nat | i in bad
      ensures c.start.held[i] && Tried(s.r.attempts, i) == 0 && s.r.sink.hashes[i] != Sha256(src[i])
    {
      RejectedWasStale(c, s, src, i);
    }
    RejectCharges(s.r, s.h.cache, w, bad);
    RejectTrusted(s.r.sink, src, bad);
  }

  lemma PeerKeepsHonest(c: Setup, s: Net, src: seq<seq<byte>>, k: nat)
    requires HonestInv(c, s, src) && Enabled(c, s, PeerTakes(k))
    ensures Next(c, s, PeerTakes(k)).r.fault.None? && HonestInv(c, Next(c, s, PeerTakes(k)), src)
  {
    hide React;
    hide Fill;
    ReactsHonest(c, s, src, k);
    var u := PeerReacts(s, k);
    FillFrame(u.r);
    PeerStep(c, s, k);
  }

  lemma ReactsHonest(c: Setup, s: Net, src: seq<seq<byte>>, k: nat)
    requires HonestInv(c, s, src) && k < |s.h.out|
    ensures PeerReacts(s, k).r.fault.None? && PeerHonest(c, PeerReacts(s, k).r, src)
  {
    hide React;
    var f := s.h.out[k];
    assert ReplyOk(c.start.layout, s.h.cache, f);
    if f.Data? {
      DataHonest(c, s, src, k);
      DataStep(c, s, k);
    } else if f.Hash? {
      HashHonest(c, s, src, k);
    } else {
      DoneStep(c, s, k);
    }
  }

  lemma HostKeepsHonest(c: Setup, s: Net, src: seq<seq<byte>>, k: nat)
    requires HonestInv(c, s, src) && Enabled(c, s, HostTakes(k, src))
    ensures HonestInv(c, Next(c, s, HostTakes(k, src)), src)
  {
    hide Sum;
    hide Total;
    hide Answer;
    hide Learned;
    hide SinkTrusted;
    hide ContentsOk;
    hide OriginsOk;
    hide RepliesOk;
    hide ChunksOk;
    hide TriesOk;
    hide WindowsOk;
    var f := s.r.out[k];
    assert AskOk(s.r.Chunks(), f);
    HostStep(c, s, k, src);
    LearnedGrows(s, f, src);
    if f.Req? {
      AnswersReq(c, s, k, src);
    } else {
      AnswersHashReq(c, s, k, src);
    }
  }

  /** Over an unchanged source no step faults, and every step keeps the trust. */
  lemma StepKeepsHonest(c: Setup, s: Net, src: seq<seq<byte>>, a: Label)
    requires HonestInv(c, s, src) && Enabled(c, s, a) && HonestLabel(src, a)
    ensures Next(c, s, a).r.fault.None? && HonestInv(c, Next(c, s, a), src)
  {
    match a
    case HostTakes(k, bytes) => HostKeepsHonest(c, s, src, k);
    case PeerTakes(k) => PeerKeepsHonest(c, s, src, k);
    case Elsewhere(i, d) => ElsewhereStep(c, s, i, d);
  }

  lemma StartHonest(c: Setup, cache: map<nat, Digest>, src: seq<seq<byte>>)
    requires ValidSetup(c) && |src| == |c.start.held| && HonestCache(src, cache) && SinkTrusted(c.start, src)
    ensures HonestInv(c, Initial(c, cache), src)
  {
    StartInv(c, cache);
    StartFormed(c.start);
    StartTriesNothing(c.start);
  }

  lemma StartTriesNothing(s: Sink)
    ensures Start(s).attempts == map[]
  {
    var r := AskComplete(Begin(s), 0);
    AskCompleteFrame(Begin(s), 0);
    FillFrame(if |s.held| == 0 then Send(r, HashReq(0, 0)) else r);
  }

  /** Over an unchanged source no run faults, in any order of frames. */
  lemma {:induction false} RunKeepsHonest(c: Setup, s: Net, src: seq<seq<byte>>, run: seq<Label>)
    requires HonestInv(c, s, src) && Legal(c, s, run) && forall k :: 0 <= k < |run| ==> HonestLabel(src, run[k])
    ensures HonestInv(c, Outcome(c, s, run), src)
    decreases |run|
  {
    if run != [] {
      StepKeepsHonest(c, s, src, run[0]);
      RunKeepsHonest(c, Next(c, s, run[0]), src, run[1..]);
    }
  }

  /** A finished session over an unchanged source has the source's bytes, or some
      chunk of it exhibits a collision. */
  lemma FinishedIdentical(c: Setup, s: Net, src: seq<seq<byte>>)
    requires HonestInv(c, s, src) && Finished(s.r)
    ensures Succeeds(s.r) && SameOrCollision(s.r.sink.disk, s.r.sink.hashes, src)
  {
    FinishedSucceeds(c, s);
    VerifiedHashes(c, s);
    forall i: nat | i < |src| ensures Sha256(s.r.sink.disk[i]) == Sha256(src[i]) {
      assert Good(s.r.sink.held, s.r.sink.hashes, src, i);
    }
    HashesDecide(s.r.sink.disk, s.r.sink.hashes, src);
  }

  /** Over an unchanged source the root in DONE is the root of direct hashing. */
  lemma HonestRoot(src: seq<seq<byte>>, cache: map<nat, Digest>)
    requires HonestCache(src, cache) && AllKnown(cache, |src|)
    ensures RootOf(cache, |src|) == Sha256(Flatten(Digests(src)))
  {
    var ds := CachedRange(cache, 0, |src|);
    forall k: nat | k < |ds| ensures ds[k] == Digests(src)[k] {
      assert ds[k] == cache[0 + k];
    }
    assert ds == Digests(src);
  }
}
