/** Every session ends, whatever bytes the host serves and in whatever order
    frames arrive. */
module Termination {
  import opened Bytes
  import opened Sums
  import opened Sinks
  import opened Receivers
  import opened Hosts
  import opened Network
  import opened Invariant
  import opened StepData
  import opened StepComplete
  import opened StepHash
  import opened StepPeer
  import opened StepHost
  import opened StepServe
  import opened Sessions
  import opened Theorems

  // ----- what runs down

  /** 1 at each chunk whose hash the host does not know. */
  function UnknownAt(cache: map<nat, Digest>): nat -> int {
    (i: nat) => if i in cache then 0 else 1
  }

  /** Rejections each chunk has left. */
  function LeftAt(attempts: map<nat, nat>): nat -> int {
    (i: nat) => MAX_ATTEMPTS + 1 - Tried(attempts, i)
  }

  function PendingAt(states: seq<WinState>): nat -> int {
    (w: nat) => if w < |states| && states[w] == Pending then 1 else 0
  }

  ghost function Unknowns(s: Net): int {
    Total(s.r.Chunks(), UnknownAt(s.h.cache))
  }

  ghost function TriesLeft(r: Receiver): int {
    Total(r.Chunks(), LeftAt(r.attempts))
  }

  ghost function PendingWindows(r: Receiver): int {
    Total(|r.winState|, PendingAt(r.winState))
  }

  /** Lexicographic descent: hashes the host has still to learn, rejections left,
      chunks queued, windows not asked about, frames to the host, frames back. */
  ghost predicate Descends(s: Net, t: Net) {
    Unknowns(t) < Unknowns(s) ||
    (Unknowns(t) == Unknowns(s) && Lower(s, t))
  }

  ghost predicate Lower(s: Net, t: Net) {
    TriesLeft(t.r) < TriesLeft(s.r) ||
    (TriesLeft(t.r) == TriesLeft(s.r) &&
     (|t.r.queue| < |s.r.queue| ||
      (|t.r.queue| == |s.r.queue| &&
       (PendingWindows(t.r) < PendingWindows(s.r) ||
        (PendingWindows(t.r) == PendingWindows(s.r) &&
         (|t.r.out| < |s.r.out| ||
          (|t.r.out| == |s.r.out| && |t.h.out| < |s.h.out|)))))))
  }

  lemma NotNegative(c: Setup, s: Net)
    requires Inv(c, s)
    ensures Unknowns(s) >= 0 && TriesLeft(s.r) >= 0 && PendingWindows(s.r) >= 0
  {
    var zero := (i: nat) => 0;
    forall i: nat | i < s.r.Chunks() ensures LeftAt(s.r.attempts)(i) >= 0 {
      assert TryOk(c.start, s.r.queue, s.r.out, s.r.attempts, s.served, i);
    }
    TotalConst(s.r.Chunks(), zero, 0);
    TotalConst(|s.r.winState|, zero, 0);
    TotalBounds(s.r.Chunks(), zero, UnknownAt(s.h.cache));
    TotalBounds(s.r.Chunks(), zero, LeftAt(s.r.attempts));
    TotalBounds(|s.r.winState|, zero, PendingAt(s.r.winState));
  }

  // ----- the receiver's steps

  /** Topping up leaves everything alone or shortens the queue. */
  lemma {:induction false} FillShortens(r: Receiver)
    ensures Fill(r) == r || |Fill(r).queue| < |r.queue|
    ensures Fill(r).attempts == r.attempts && Fill(r).winState == r.winState && Fill(r).sink == r.sink
    decreases |r.queue|
  {
    if r.outstanding < IN_FLIGHT && r.queue != [] {
      FillShortens(FillOne(r));
    }
  }

  /** A step of the receiver before it tops up: either some chunk loses a try, or
      the queue stays and a pending window is asked about or one frame is used up. */
  ghost predicate UsesUp(s: Net, u: Net) {
    TriesLeft(u.r) < TriesLeft(s.r) ||
    (TriesLeft(u.r) == TriesLeft(s.r) && u.r.queue == s.r.queue &&
     (PendingWindows(u.r) < PendingWindows(s.r) ||
      (PendingWindows(u.r) == PendingWindows(s.r) && |u.r.out| == |s.r.out| && |u.h.out| < |s.h.out|)))
  }

  lemma DataUsesUp(c: Setup, s: Net, k: nat)
    requires Core(c, s) && k < |s.h.out| && s.h.out[k].Data?
    ensures UsesUp(s, PeerReacts(s, k))
  {
    hide React;
    var f := s.h.out[k];
    DataArrives(c, s, k);
    ReactsToData(c, s, k, f.index, f);
    var w := f.index / HASH_WINDOW;
    PendingChange(s.r.winState, w, Asked);
  }

  lemma PendingChange(states: seq<WinState>, w: nat, to: WinState)
    requires w < |states|
    ensures Total(|states|, PendingAt(states[w := to]))
            == Total(|states|, PendingAt(states)) + (if to == Pending then 1 else 0)
               - (if states[w] == Pending then 1 else 0)
  {
    TotalChange(|states|, PendingAt(states), PendingAt(states[w := to]), w);
  }

  lemma HashUsesUp(c: Setup, s: Net, k: nat)
    requires Core(c, s) && k < |s.h.out| && s.h.out[k].Hash? && PeerReacts(s, k).r.fault.None?
    ensures UsesUp(s, PeerReacts(s, k))
  {
    hide React;
    hide Bad;
    var f := s.h.out[k];
    if s.r.Chunks() == 0 {
      EmptyHashStep(c, s, k);
    } else {
      var w := HashArrives(c, s, k);
      var bad := Bad(s.r.sink, f.first, f.payload);
      ReactsToHash(s, k, w, f);
      if bad == [] {
        PendingChange(s.r.winState, w, Verified);
        assert Cleared(s.r.sink.held, []) == s.r.sink.held;
      } else {
        BadRejects(s.r.sink, s.h.cache, w, f.first, f.count);
        RejectCharges(s.r, s.h.cache, w, bad);
        RejectUses(s.r, PeerReacts(s, k).r, w, bad);
      }
    }
  }

  lemma RejectUses(r: Receiver, t: Receiver, w: nat, bad: seq<nat>)
    requires w < |r.winRecv| == |r.winState| && Charged(r, t, w, bad) && bad != [] && Distinct(bad)
    requires forall k :: 0 <= k < |bad| ==> bad[k] < r.Chunks()
    ensures TriesLeft(t) < TriesLeft(r)
  {
    var minus := (i: nat) => -1;
    TotalList(r.Chunks(), LeftAt(r.attempts), LeftAt(t.attempts), bad, minus);
    ListSumConst(bad, minus, -1);
  }

  lemma PeerDescends(c: Setup, s: Net, k: nat)
    requires Inv(c, s) && Enabled(c, s, PeerTakes(k)) && Next(c, s, PeerTakes(k)).r.fault.None?
    ensures Descends(s, Next(c, s, PeerTakes(k)))
  {
    hide React;
    var f, u := s.h.out[k], PeerReacts(s, k);
    assert ReplyOk(c.start.layout, s.h.cache, f);
    if f.Data? {
      DataUsesUp(c, s, k);
      DataStep(c, s, k);
    } else if f.Hash? {
      FillFrame(u.r);
      HashUsesUp(c, s, k);
      HashStep(c, s, k);
    } else {
      DoneStep(c, s, k);
    }
    FillShortens(u.r);
  }

  // ----- the host's and the others'

  lemma KnowsMore(n: nat, cache: map<nat, Digest>, later: map<nat, Digest>)
    requires Grows(cache, later)
    ensures Total(n, UnknownAt(later)) <= Total(n, UnknownAt(cache))
  {
    TotalBounds(n, UnknownAt(later), UnknownAt(cache));
  }

  lemma HostDescends(c: Setup, s: Net, k: nat, bytes: seq<seq<byte>>)
    requires Inv(c, s) && Enabled(c, s, HostTakes(k, bytes))
    ensures Descends(s, Next(c, s, HostTakes(k, bytes)))
  {
    hide Sum;
    hide Total;
    hide ChunksOk;
    hide TriesOk;
    hide ContentsOk;
    hide OriginsOk;
    hide WindowsOk;
    hide RepliesOk;
    hide Answer;
    hide Learned;
    var f := s.r.out[k];
    assert AskOk(s.r.Chunks(), f);
    LearnedGrows(s, f, bytes);
    KnowsMore(s.r.Chunks(), s.h.cache, Learned(s, f, bytes));
    if f.Req? {
      AnswersReq(c, s, k, bytes);
    } else {
      AnswersHashReq(c, s, k, bytes);
    }
  }

  lemma StepDescends(c: Setup, s: Net, a: Label)
    requires Inv(c, s) && Enabled(c, s, a) && Next(c, s, a).r.fault.None?
    ensures Descends(s, Next(c, s, a))
  {
    match a
    case HostTakes(k, bytes) => HostDescends(c, s, k, bytes);
    case PeerTakes(k) => PeerDescends(c, s, k);
    case Elsewhere(i, d) =>
      TotalChange(s.r.Chunks(), UnknownAt(s.h.cache), UnknownAt(Learn(s.h.cache, i, d)), i);
  }

  // ----- every run ends

  ghost predicate Steps(c: Setup, s: Net, t: Net) {
    Ready(c, s) && exists a :: Enabled(c, s, a) && t == Next(c, s, a)
  }

  /** There is no endless session: in any sequence of states the steps stop following one another. */
  lemma {:induction false} RunsEnd(c: Setup, run: nat -> Net, k: nat)
    requires Inv(c, run(k))
    ensures exists j :: k <= j && !Steps(c, run(j), run(j + 1))
    decreases Unknowns(run(k)), TriesLeft(run(k).r), |run(k).r.queue|, PendingWindows(run(k).r),
              |run(k).r.out|, |run(k).h.out|
  {
    var s, t := run(k), run(k + 1);
    if Steps(c, s, t) {
      var a :| Enabled(c, s, a) && t == Next(c, s, a);
      StepKeeps(c, s, a);
      if t.r.fault.None? {
        NotNegative(c, s);
        NotNegative(c, t);
        StepDescends(c, s, a);
        RunsEnd(c, run, k + 1);
      } else {
        assert !Steps(c, run(k + 1), run(k + 1 + 1));
      }
    }
  }

  /** While the receiver is neither finished nor faulted and anything is in
      transit, something can happen. */
  lemma CanMove(c: Setup, s: Net)
    requires Inv(c, s) && !Quiet(s) && !Finished(s.r)
    ensures exists a :: Enabled(c, s, a)
  {
    if s.r.out != [] {
      assert Enabled(c, s, HostTakes(0, c.start.disk));
    } else {
      assert Enabled(c, s, PeerTakes(0));
    }
  }

  /** Where a session can end: a fault is the one it can be, a finish is a success,
      and a state with no step left is finished or waits for a DONE that the host
      will not send because the last chunk never had to be fetched. */
  lemma EndsWell(c: Setup, s: Net)
    requires Inv(c, s) && forall a :: !Enabled(c, s, a)
    ensures AllVerified(s.r)
    ensures if |c.start.held| == 0 || LastFetched(c, s.h.cache) then Succeeds(s.r) else !Finished(s.r)
  {
    if s.r.out != [] {
      assert Enabled(c, s, HostTakes(0, c.start.disk));
    }
    if !Finished(s.r) {
      if !Quiet(s) {
        CanMove(c, s);
      }
      QuietOutcome(c, s);
    } else {
      FinishedSucceeds(c, s);
      FinishedNeedsLast(c, s);
    }
  }

  /** In any reachable state, quiet or not, a finish means the last chunk was fetched. */
  lemma FinishedNeedsLast(c: Setup, s: Net)
    requires Inv(c, s) && Finished(s.r)
    ensures |c.start.held| == 0 || LastFetched(c, s.h.cache)
  {
    var n := s.r.Chunks();
    if n > 0 {
      VerifiedHashes(c, s);
      assert ChunkOk(s.r.sink, s.r.queue, s.r.out, s.h.out, s.r.partial, n - 1);
      assert TryOk(c.start, s.r.queue, s.r.out, s.r.attempts, s.served, n - 1);
      assert OriginOk(c.start, s.r.sink, s.r.attempts, s.h.cache, n - 1);
    }
  }
}
