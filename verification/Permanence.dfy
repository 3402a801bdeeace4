/** A verified window is final: whatever happens afterwards, its chunks are not
    rejected, not asked for, not served and not written again. */
module Permanence {
  import opened Bytes
  import opened Sums
  import opened Sinks
  import opened Receivers
  import opened Hosts
  import opened Network
  import opened Invariant
  import opened StepData
  import opened StepComplete
  import opened StepHash
  import opened StepPeer
  import opened Sessions
  import opened Theorems

  /** Chunk i is recorded in b as in a, with the same bytes on disk. */
  ghost predicate SameChunk(a: Sink, b: Sink, i: nat) {
    i < |a.held| == |a.hashes| == |a.disk| && i < |b.held| == |b.hashes| == |b.disk| &&
    b.held[i] == a.held[i] && b.hashes[i] == a.hashes[i] && b.disk[i] == a.disk[i]
  }

  /** Window w is verified in r, and its chunks are in r's sink as in a. */
  ghost predicate Settled(a: Sink, r: Receiver, w: nat) {
    w < |r.winState| && r.winState[w] == Verified && |r.sink.held| == |a.held| &&
    forall i: nat :: i < |a.held| && i / HASH_WINDOW == w ==> SameChunk(a, r.sink, i)
  }

  /** ... and none of them was served between s and t. */
  ghost predicate Untouched(s: Net, t: Net, w: nat) {
    Settled(s.r.sink, t.r, w) && |t.served| == |s.served| == |s.r.sink.held| &&
    forall i: nat :: i < |s.served| && i / HASH_WINDOW == w ==> t.served[i] == s.served[i]
  }

  /** A DATA frame is for a chunk that is missing, so of another window. */
  lemma DataLeaves(c: Setup, s: Net, k: nat, w: nat)
    requires Inv(c, s) && k < |s.h.out| && s.h.out[k].Data? && w < |s.r.winState| && s.r.winState[w] == Verified
    ensures Settled(s.r.sink, PeerReacts(s, k).r, w)
  {
    hide React;
    hide NewBuf;
    hide Sum;
    hide Total;
    hide ChunksOk;
    hide TriesOk;
    hide ContentsOk;
    hide OriginsOk;
    hide WindowsOk;
    hide AsksOk;
    var f := s.h.out[k];
    DataArrives(c, s, k);
    WindowMeaning(c, s, w);
    ReactsToData(c, s, k, f.index, f);
  }

  /** A HASH frame answers for a window that was asked about, so for another one. */
  lemma HashLeaves(c: Setup, s: Net, k: nat, w: nat)
    requires Inv(c, s) && k < |s.h.out| && s.h.out[k].Hash? && w < |s.r.winState| && s.r.winState[w] == Verified
    ensures Settled(s.r.sink, PeerReacts(s, k).r, w)
  {
    hide React;
    hide Bad;
    hide Sum;
    hide Total;
    hide ChunksOk;
    hide TriesOk;
    hide ContentsOk;
    hide OriginsOk;
    hide WindowsOk;
    hide AsksOk;
    hide Reject;
    var f := s.h.out[k];
    var v := HashArrives(c, s, k);
    var bad := Bad(s.r.sink, f.first, f.payload);
    ReactsToHash(s, k, v, f);
    if bad == [] {
      assert Cleared(s.r.sink.held, []) == s.r.sink.held;
    } else {
      BadRejects(s.r.sink, s.h.cache, v, f.first, f.count);
      RejectLeaves(s.r, s.h.cache, v, bad, w);
    }
  }

  lemma RejectLeaves(r: Receiver, cache: map<nat, Digest>, v: nat, bad: seq<nat>, w: nat)
    requires Formed(r) && Rejects(r.sink, cache, v, bad) && w < |r.winState| && r.winState[w] == Verified && v != w
    ensures Settled(r.sink, Reject(r.(sink := Rejected(r.sink, bad)), v, bad), w)
  {
    hide Charge;
    ChargeFrame(r.(sink := Rejected(r.sink, bad), winState := r.winState[v := Pending]), v, bad);
  }

  lemma PeerLeaves(c: Setup, s: Net, k: nat, w: nat)
    requires Inv(c, s) && Enabled(c, s, PeerTakes(k)) && w < |s.r.winState| && s.r.winState[w] == Verified
    ensures Untouched(s, Next(c, s, PeerTakes(k)), w)
  {
    hide React;
    hide Sum;
    hide Total;
    hide ChunksOk;
    hide TriesOk;
    hide ContentsOk;
    hide OriginsOk;
    hide WindowsOk;
    hide AsksOk;
    var f := s.h.out[k];
    assert ReplyOk(c.start.layout, s.h.cache, f);
    if f.Data? {
      DataLeaves(c, s, k, w);
    } else if f.Hash? {
      HashLeaves(c, s, k, w);
    } else {
      DoneStep(c, s, k);
    }
    FillFrame(PeerReacts(s, k).r);
  }

  /** No request for the window's chunks is in transit, so the host serves none of them. */
  lemma HostLeaves(c: Setup, s: Net, k: nat, bytes: seq<seq<byte>>, w: nat)
    requires Inv(c, s) && Enabled(c, s, HostTakes(k, bytes)) && w < |s.r.winState| && s.r.winState[w] == Verified
    ensures Untouched(s, Next(c, s, HostTakes(k, bytes)), w)
  {
    hide Sum;
    hide Answer;
    WindowMeaning(c, s, w);
    var f := s.r.out[k];
    if f.Req? {
      forall i: nat | i < |s.served| && i / HASH_WINDOW == w ensures !(f.first <= i < f.first + f.count) {
        assert Requested(s.r.out, i) == 0;
        assert f in s.r.out && (f.first <= i < f.first + f.count ==> ReqWeight(i)(f) == 1);
        SumMember(s.r.out, ReqWeight(i), f);
      }
    }
  }

  /** One step of anyone leaves a verified window alone, also the step in which the receiver gives up. */
  lemma StepLeaves(c: Setup, s: Net, a: Label, w: nat)
    requires Inv(c, s) && Enabled(c, s, a) && w < |s.r.winState| && s.r.winState[w] == Verified
    ensures Untouched(s, Next(c, s, a), w)
  {
    match a
    case HostTakes(k, bytes) => HostLeaves(c, s, k, bytes, w);
    case PeerTakes(k) => PeerLeaves(c, s, k, w);
    case Elsewhere(_, _) =>
  }

  lemma UntouchedOn(s: Net, t: Net, u: Net, w: nat)
    requires Untouched(s, t, w) && Untouched(t, u, w)
    ensures Untouched(s, u, w)
  {
    forall i: nat | i < |s.served| && i / HASH_WINDOW == w
      ensures SameChunk(s.r.sink, u.r.sink, i) && u.served[i] == s.served[i]
    {
      assert SameChunk(s.r.sink, t.r.sink, i) && SameChunk(t.r.sink, u.r.sink, i);
    }
  }

  lemma UntouchedVerified(s: Net, t: Net, w: nat)
    requires Untouched(s, t, w)
    ensures w < |t.r.winState| && t.r.winState[w] == Verified
  {
  }

  lemma UntouchedYet(c: Setup, s: Net, w: nat)
    requires Inv(c, s) && w < |s.r.winState| && s.r.winState[w] == Verified
    ensures Untouched(s, s, w)
  {
  }

  /** Permanence. From any reachable state, whatever run follows and however it
      ends, a verified window is verified still, its chunks have the same records
      and the same bytes on disk, and not one of them has been served again. */
  lemma {:induction false} VerifiedForGood(c: Setup, s: Net, run: seq<Label>, w: nat)
    requires Inv(c, s) && Legal(c, s, run) && w < |s.r.winState| && s.r.winState[w] == Verified
    ensures Untouched(s, Outcome(c, s, run), w)
    decreases |run|
  {
    hide Next;
    hide Core;
    hide Untouched;
    UntouchedYet(c, s, w);
    if run != [] {
      var t := Next(c, s, run[0]);
      StepLeaves(c, s, run[0], w);
      StepKeeps(c, s, run[0]);
      if t.r.fault.None? {
        UntouchedVerified(s, t, w);
        VerifiedForGood(c, t, run[1..], w);
        UntouchedOn(s, t, Outcome(c, t, run[1..]), w);
      } else {
        assert run[1..] == [];
      }
    }
  }
}
