/** Every step of the receiver keeps the invariant, or ends the run because a
    chunk was rejected too often. */
module StepPeer {
  import opened Bytes
  import opened Sums
  import opened Wire
  import opened Sinks
  import opened Receivers
  import opened Network
  import opened Invariant
  import opened StepData
  import opened StepComplete
  import opened StepHash

  /** The receiver after window w's answer rejected bad, in terms of what the rejection charged. */
  ghost predicate Charged(r: Receiver, t: Receiver, w: nat, bad: seq<nat>)
    requires w < |r.winRecv| == |r.winState|
  {
    t == r.(sink := Rejected(r.sink, bad), winState := r.winState[w := Pending],
            winRecv := r.winRecv[w := r.winRecv[w] - |bad|],
            progress := r.progress + ListSum(bad, MinusSpan(r.sink.layout)),
            attempts := t.attempts, queue := bad + r.queue) &&
    (forall i: nat :: Tried(t.attempts, i) == Tried(r.attempts, i) + if i in bad then 1 else 0) &&
    (forall i: nat :: i in bad ==> Tried(t.attempts, i) <= MAX_ATTEMPTS)
  }

  lemma RejectCharges(r: Receiver, cache: map<nat, Digest>, w: nat, bad: seq<nat>)
    requires Formed(r) && r.fault.None? && Rejects(r.sink, cache, w, bad)
    ensures var t := Reject(r.(sink := Rejected(r.sink, bad)), w, bad);
            t.sink == Rejected(r.sink, bad) &&
            if t.fault.None? then Charged(r, t, w, bad)
            else t.fault.value.TooManyAttempts? && t.fault.value.chunk in bad &&
                 Tried(r.attempts, t.fault.value.chunk) >= MAX_ATTEMPTS
  {
    var u := r.(sink := Rejected(r.sink, bad), winState := r.winState[w := Pending]);
    ChargeEffect(u, w, bad);
    ChargeFrame(u, w, bad);
  }

  lemma QueueBounded(bad: seq<nat>, queue: seq<nat>, n: nat)
    requires forall k :: 0 <= k < |bad| ==> bad[k] < n
    requires forall k :: 0 <= k < |queue| ==> queue[k] < n
    ensures forall k :: 0 <= k < |bad + queue| ==> (bad + queue)[k] < n
  {
  }

  lemma RejectBase(c: Setup, s: Net, k: nat, w: nat, bad: seq<nat>, t: Receiver)
    requires Base(c, s) && k < |s.h.out| && w < |s.r.winRecv|
    requires Rejects(s.r.sink, s.h.cache, w, bad) && Charged(s.r, t, w, bad)
    ensures Base(c, s.(h := s.h.(out := Without(s.h.out, k)), r := t))
  {
    QueueBounded(bad, s.r.queue, s.r.Chunks());
  }

  lemma RejectStep(c: Setup, s: Net, k: nat, w: nat, f: Frame, bad: seq<nat>, t: Receiver)
    requires Core(c, s) && w in s.answered
    requires AnswerArrives(s.r.sink, s.r.winRecv, s.r.winState, s.r.out, s.h.out, s.h.cache, k, w, f)
    requires Rejects(s.r.sink, s.h.cache, w, bad) && Charged(s.r, t, w, bad)
    ensures Core(c, s.(h := s.h.(out := Without(s.h.out, k)), r := t))
  {
    hide ChunksOk;
    hide TriesOk;
    hide ContentsOk;
    hide OriginsOk;
    hide WindowsOk;
    hide RepliesOk;
    hide AsksOk;
    hide Sum;
    hide Total;
    RejectBase(c, s, k, w, bad, t);
    var r, back := s.r, Without(s.h.out, k);
    TakeChunks(r.sink, r.queue, r.out, s.h.out, r.partial, s.served, s.wire, k);
    TakeReplies(c.start.layout, s.h.cache, s.h.out, k);
    TakeWeights(s.h.out, k, w);
    AskedVerified(r.winState, w, Pending);
    RejectChunks(r.sink, r.queue, r.out, back, r.partial, c.start, r.attempts, t.attempts, s.served, s.h.cache, w, bad);
    RejectOrigins(c.start, r.sink, r.attempts, t.attempts, s.h.cache, w, bad);
    RejectContents(r.sink, r.partial, back, s.served, s.wire, bad);
    RejectProgress(r.sink, r.progress, r.partial, s.h.cache, w, bad);
    RejectWindows(r.sink, r.winRecv, r.winState, r.out, s.h.out, s.answered, s.h.cache, k, w, f, bad);
  }

  lemma ReactsToHash(s: Net, k: nat, w: nat, f: Frame)
    requires Formed(s.r) && AnswerArrives(s.r.sink, s.r.winRecv, s.r.winState, s.r.out, s.h.out, s.h.cache, k, w, f)
    ensures var bad := Bad(s.r.sink, f.first, f.payload);
            (forall k :: 0 <= k < |bad| ==> bad[k] < s.r.sink.layout.Chunks()) &&
            PeerReacts(s, k) ==
            s.(h := s.h.(out := Without(s.h.out, k)),
               r := var r := s.r.(sink := Rejected(s.r.sink, bad));
                    if bad == [] then Accept(r, w) else Reject(r, w, bad))
  {
    hide OnData;
    hide Charge;
    hide Bad;
    BadInRange(s.r.sink, f.first, f.payload);
  }

  /** Taking a HASH frame. */
  lemma HashStep(c: Setup, s: Net, k: nat)
    requires Core(c, s) && k < |s.h.out| && s.h.out[k].Hash?
    ensures var t := PeerReacts(s, k);
            if t.r.fault.None? then Core(c, t) && t.r.outstanding == s.r.outstanding
            else t.r.fault.value.TooManyAttempts? && Tried(s.r.attempts, t.r.fault.value.chunk) >= MAX_ATTEMPTS
    ensures var t := PeerReacts(s, k);
            t.r.sink == Rejected(s.r.sink, Bad(s.r.sink, s.h.out[k].first, s.h.out[k].payload)) || t.r.sink == s.r.sink
  {
    hide React;
    hide Bad;
    var f := s.h.out[k];
    if s.r.Chunks() == 0 {
      EmptyHashStep(c, s, k);
    } else {
      var w := HashArrives(c, s, k);
      var bad := Bad(s.r.sink, f.first, f.payload);
      ReactsToHash(s, k, w, f);
      if bad == [] {
        AcceptStep(c, s, k, w, f);
      } else {
        BadRejects(s.r.sink, s.h.cache, w, f.first, f.count);
        RejectCharges(s.r, s.h.cache, w, bad);
        var t := PeerReacts(s, k).r;
        if t.fault.None? {
          RejectStep(c, s, k, w, f, bad, t);
        }
      }
    }
  }

  /** With nothing to fetch a HASH frame changes nothing. */
  lemma EmptyHashStep(c: Setup, s: Net, k: nat)
    requires Core(c, s) && k < |s.h.out| && s.h.out[k].Hash? && s.r.Chunks() == 0
    ensures PeerReacts(s, k) == s.(h := s.h.(out := Without(s.h.out, k))) && Core(c, PeerReacts(s, k))
  {
    var r := s.r;
    TakeChunks(r.sink, r.queue, r.out, s.h.out, r.partial, s.served, s.wire, k);
    TakeReplies(c.start.layout, s.h.cache, s.h.out, k);
    TakeWeights(s.h.out, k, 0);
  }

  /** Taking the DONE frame. */
  lemma DoneStep(c: Setup, s: Net, k: nat)
    requires Core(c, s) && k < |s.h.out| && s.h.out[k].Done?
    ensures PeerReacts(s, k) == s.(h := s.h.(out := Without(s.h.out, k)), r := s.r.(root := Some(s.h.out[k].payload)))
    ensures Core(c, PeerReacts(s, k))
  {
    var r := s.r;
    assert ReplyOk(c.start.layout, s.h.cache, s.h.out[k]);
    TakeChunks(r.sink, r.queue, r.out, s.h.out, r.partial, s.served, s.wire, k);
    TakeReplies(c.start.layout, s.h.cache, s.h.out, k);
    TakeWeights(s.h.out, k, 0);
    TakeWindows(r.sink, r.winRecv, r.winState, r.out, s.h.out, s.answered, s.h.cache, k);
  }
}
