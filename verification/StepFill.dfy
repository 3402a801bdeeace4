/** Topping up requests keeps the invariant, and leaves the queue empty or 64
    chunks outstanding. */
module StepFill {
  import opened Bytes
  import opened Sums
  import opened Wire
  import opened Sinks
  import opened Receivers
  import opened Network
  import opened Invariant

  lemma {:induction false} RangeWeight(first: nat, count: nat, i: nat)
    ensures Sum(Range(first, count), QueueWeight(i)) == if first <= i < first + count then 1 else 0
  {
    if count > 0 {
      assert Range(first, count) == Range(first, count - 1) + [first + count - 1];
      SumAppend<nat>(Range(first, count - 1), first + count - 1, QueueWeight(i));
      RangeWeight(first, count - 1, i);
    }
  }

  /** What FillOne does, in plain numbers: the REQ sent names exactly the m
      chunks taken off the front of the queue. */
  ghost predicate TakesRun(r: Receiver, t: Receiver, first: nat, m: nat) {
    0 < m <= |r.queue| && first + m < MAX32 && r.queue[..m] == Range(first, m) &&
    t == r.(queue := r.queue[m..], outstanding := r.outstanding + m, out := r.out + [Req(first, m)])
  }

  lemma FillOneTakesRun(r: Receiver, n: nat) returns (first: nat, m: nat)
    requires r.queue != [] && n < MAX32 && forall k :: 0 <= k < |r.queue| ==> r.queue[k] < n
    ensures TakesRun(r, FillOne(r), first, m) && first + m <= n
    ensures m > 1 ==> r.outstanding + m <= IN_FLIGHT
  {
    first, m := r.queue[0], RunLength(r.queue, r.outstanding, 1);
    RunLengthBounds(r.queue, r.outstanding, 1);
    assert r.queue[m - 1] == first + (m - 1);
    assert r.queue[..m] == Range(first, m);
  }

  function In(first: nat, m: nat, i: nat): nat {
    if first <= i < first + m then 1 else 0
  }

  lemma RunWeights(r: Receiver, t: Receiver, first: nat, m: nat, i: nat)
    requires TakesRun(r, t, first, m)
    ensures Queued(t.queue, i) + In(first, m, i) == Queued(r.queue, i)
    ensures Requested(t.out, i) == Requested(r.out, i) + In(first, m, i)
    ensures Sum(t.out, AskWeight(i)) == Sum(r.out, AskWeight(i))
  {
    assert r.queue == r.queue[..m] + r.queue[m..];
    SumConcat<nat>(r.queue[..m], r.queue[m..], QueueWeight(i));
    RangeWeight(first, m, i);
    SumAppend(r.out, Req(first, m), ReqWeight(i));
    SumAppend(r.out, Req(first, m), AskWeight(i));
  }

  lemma RunChunks(r: Receiver, t: Receiver, back: seq<Frame>, first: nat, m: nat)
    requires Shaped(r.sink) && TakesRun(r, t, first, m)
    requires ChunksOk(r.sink, r.queue, r.out, back, r.partial)
    ensures ChunksOk(t.sink, t.queue, t.out, back, t.partial)
  {
    forall i: nat | i < |t.sink.held| ensures ChunkOk(t.sink, t.queue, t.out, back, t.partial, i) {
      assert ChunkOk(r.sink, r.queue, r.out, back, r.partial, i);
      RunWeights(r, t, first, m, i);
    }
  }

  lemma RunTries(start: Sink, served: seq<nat>, r: Receiver, t: Receiver, first: nat, m: nat)
    requires |start.held| == |served| && TakesRun(r, t, first, m)
    requires TriesOk(start, r.queue, r.out, r.attempts, served)
    ensures TriesOk(start, t.queue, t.out, t.attempts, served)
  {
    forall i: nat | i < |served| ensures TryOk(start, t.queue, t.out, t.attempts, served, i) {
      assert TryOk(start, r.queue, r.out, r.attempts, served, i);
      RunWeights(r, t, first, m, i);
    }
  }

  lemma RunWindows(r: Receiver, t: Receiver, back: seq<Frame>, answered: set<nat>, cache: map<nat, Digest>,
                   first: nat, m: nat)
    requires Shaped(r.sink) && |r.winState| == |r.winRecv| && TakesRun(r, t, first, m)
    requires WindowsOk(r.sink, r.winRecv, r.winState, r.out, back, answered, cache)
    ensures WindowsOk(t.sink, t.winRecv, t.winState, t.out, back, answered, cache)
  {
    forall w: nat | w < |t.winState|
      ensures WindowOk(t.sink, t.winRecv, t.winState, t.out, back, answered, cache, w)
    {
      assert WindowOk(r.sink, r.winRecv, r.winState, r.out, back, answered, cache, w);
      RunWeights(r, t, first, m, w);
    }
  }

  lemma RunOutstanding(r: Receiver, t: Receiver, back: seq<Frame>, first: nat, m: nat)
    requires Shaped(r.sink) && TakesRun(r, t, first, m) && first + m <= r.Chunks()
    requires ChunksOk(r.sink, r.queue, r.out, back, r.partial)
    requires OutstandingOk(r.Chunks(), r.outstanding, r.out, back, r.partial)
    ensures OutstandingOk(t.Chunks(), t.outstanding, t.out, back, t.partial)
  {
    var one := (i: nat) => 1;
    var run := Range(first, m);
    var g, h := FlightAt(r.out, back, r.partial), FlightAt(t.out, back, t.partial);
    forall i: nat | i < r.Chunks() ensures h(i) == g(i) + if i in run then one(i) else 0 {
      assert ChunkOk(r.sink, r.queue, r.out, back, r.partial, i);
      RunWeights(r, t, first, m, i);
    }
    TotalList(r.Chunks(), g, h, run, one);
    ListSumConst(run, one, 1);
  }

  /** One REQ of fill keeps the invariant. */
  lemma FillOneKeeps(c: Setup, s: Net)
    requires Core(c, s) && s.r.queue != []
    ensures Core(c, s.(r := FillOne(s.r)))
    ensures s.r.outstanding < IN_FLIGHT ==> FillOne(s.r).outstanding <= IN_FLIGHT
  {
    var r, t := s.r, FillOne(s.r);
    var first, m := FillOneTakesRun(r, r.Chunks());
    RunChunks(r, t, s.h.out, first, m);
    RunTries(c.start, s.served, r, t, first, m);
    RunWindows(r, t, s.h.out, s.answered, s.h.cache, first, m);
    RunOutstanding(r, t, s.h.out, first, m);
    assert AskOk(r.Chunks(), Req(first, m));
    assert forall k :: 0 <= k < |t.queue| ==> t.queue[k] == r.queue[k + m];
  }

  /** Topping up keeps the invariant and fills the allowance. */
  lemma {:induction false} FillKeeps(c: Setup, s: Net)
    requires Core(c, s) && s.r.outstanding <= IN_FLIGHT
    ensures Core(c, s.(r := Fill(s.r))) && FillOk(s.(r := Fill(s.r)))
    decreases |s.r.queue|
  {
    if s.r.outstanding < IN_FLIGHT && s.r.queue != [] {
      FillOneKeeps(c, s);
      FillKeeps(c, s.(r := FillOne(s.r)));
    }
  }

  // ----- coalescing

  /** The chunks a list of REQ frames names, in order. */
  function Named(fs: seq<Frame>): seq<nat> {
    if fs == [] then []
    else (if fs[0].Req? then Range(fs[0].first, fs[0].count) else []) + Named(fs[1..])
  }

  /** The first REQ of a fill that sends any. */
  lemma FillNext(r: Receiver, n: nat) returns (t: Receiver, first: uint32, m: uint32)
    requires n < MAX32 && forall k :: 0 <= k < |r.queue| ==> r.queue[k] < n
    requires r.outstanding < IN_FLIGHT && r.queue != []
    ensures Fill(r) == Fill(t) && |t.queue| < |r.queue| && t.outstanding == r.outstanding + m
    ensures t.out == r.out + [Req(first, m)] && first == r.queue[0]
    ensures m <= |r.queue| && t.queue == r.queue[m..] && r.queue[..m] == Range(first, m)
    ensures forall k :: 0 <= k < |t.queue| ==> t.queue[k] < n
    ensures t.outstanding < IN_FLIGHT && t.queue != [] ==> t.queue[0] != first + m
  {
    hide RunLength;
    t := FillOne(r);
    first, m := FillOneTakesRun(r, n);
    RunLengthBounds(r.queue, r.outstanding, 1);
    assert forall k :: 0 <= k < |t.queue| ==> t.queue[k] == r.queue[k + m];
  }

  lemma FillDone(r: Receiver)
    requires r.outstanding >= IN_FLIGHT || r.queue == []
    ensures Fill(r) == r
  {
  }

  /** The frames one fill sends, expanded, followed by what stays queued, are the
      old queue; they are all REQ frames, and what was written before is untouched. */
  lemma {:induction false} FillCoalesces(r: Receiver, n: nat)
    requires n < MAX32 && forall k :: 0 <= k < |r.queue| ==> r.queue[k] < n
    ensures r.out <= Fill(r).out
    ensures var sent := Fill(r).out[|r.out|..];
            Named(sent) + Fill(r).queue == r.queue && Fill(r).outstanding == r.outstanding + |Named(sent)| &&
            forall k :: 0 <= k < |sent| ==> sent[k].Req?
    decreases |r.queue|
  {
    hide Fill;
    if r.outstanding < IN_FLIGHT && r.queue != [] {
      var t, first, m := FillNext(r, n);
      FillCoalesces(t, n);
      SentFirst(r.out, Req(first, m), Fill(t).out);
      NamedFirst(r.queue, first, m, Fill(t).out[|t.out|..], Fill(t).queue);
    } else {
      FillDone(r);
    }
  }

  /** No two REQ frames of one fill could have been one: no frame starts where the one before it ends. */
  lemma {:induction false} FillMaximal(r: Receiver, n: nat)
    requires n < MAX32 && forall k :: 0 <= k < |r.queue| ==> r.queue[k] < n
    ensures r.out <= Fill(r).out
    ensures var sent := Fill(r).out[|r.out|..];
            (forall k :: 0 <= k < |sent| ==> sent[k].Req?) &&
            (sent != [] ==> r.outstanding < IN_FLIGHT && r.queue != [] && sent[0].first == r.queue[0]) &&
            forall k :: 0 <= k < |sent| - 1 ==> sent[k].first + sent[k].count != sent[k + 1].first
    decreases |r.queue|
  {
    hide Fill;
    if r.outstanding < IN_FLIGHT && r.queue != [] {
      var t, first, m := FillNext(r, n);
      FillMaximal(t, n);
      SentFirst(r.out, Req(first, m), Fill(t).out);
      var sent, rest := Fill(r).out[|r.out|..], Fill(t).out[|t.out|..];
      assert sent == [Req(first, m)] + rest;
      forall k | 0 <= k < |sent| - 1 ensures sent[k].first + sent[k].count != sent[k + 1].first {
        assert sent[k + 1] == rest[k] && (k > 0 ==> sent[k] == rest[k - 1]);
      }
    } else {
      FillDone(r);
    }
  }

  lemma SentFirst(out: seq<Frame>, f: Frame, later: seq<Frame>)
    requires out + [f] <= later
    ensures out <= later && later[|out|..] == [f] + later[|out| + 1..]
  {
    assert later[|out|] == (out + [f])[|out|];
    assert later[..|out|] == (out + [f])[..|out|] == out;
  }

  lemma NamedFirst(queue: seq<nat>, first: uint32, m: uint32, rest: seq<Frame>, left: seq<nat>)
    requires m <= |queue| && queue[..m] == Range(first, m) && Named(rest) + left == queue[m..]
    ensures Named([Req(first, m)] + rest) + left == queue
    ensures |Named([Req(first, m)] + rest)| == m + |Named(rest)|
  {
    assert ([Req(first, m)] + rest)[1..] == rest;
    assert Range(first, m) + Named(rest) + left == Range(first, m) + (Named(rest) + left);
    assert queue == queue[..m] + queue[m..];
  }
}
