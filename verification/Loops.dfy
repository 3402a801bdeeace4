/** The two state machines of a session are the loops of the two programs: over
    any run, the receiver is where run gets with the frames it took, and the host
    is where serve gets with the frames it took. Only their connections differ,
    by the frames the other side has taken. */
module Loops {
  import opened Bytes
  import opened Wire
  import opened Sums
  import opened Store
  import opened Sinks
  import opened Receivers
  import opened Hosts
  import opened HostSessions
  import opened Network
  import opened StepHash
  import opened Sessions

  /** The frames the receiver took in a run, in order. */
  ghost function PeerTook(c: Setup, s: Net, run: seq<Label>): seq<Frame>
    requires Legal(c, s, run)
    decreases |run|
  {
    if run == [] then []
    else (if run[0].PeerTakes? then [s.h.out[run[0].k]] else []) + PeerTook(c, Next(c, s, run[0]), run[1..])
  }

  /** The frames the host took in a run, in order. */
  ghost function HostTook(c: Setup, s: Net, run: seq<Label>): seq<Frame>
    requires Legal(c, s, run)
    decreases |run|
  {
    if run == [] then []
    else (if run[0].HostTakes? then [s.r.out[run[0].k]] else []) + HostTook(c, Next(c, s, run[0]), run[1..])
  }

  /** What the source read as at each frame the host took. */
  function Views(run: seq<Label>): seq<seq<seq<byte>>> {
    if run == [] then [] else (if run[0].HostTakes? then [run[0].bytes] else []) + Views(run[1..])
  }

  lemma RunNext(c: Setup, s: Net, run: seq<Label>)
    requires Legal(c, s, run) && run != []
    ensures var u := Next(c, s, run[0]);
            Outcome(c, s, run) == Outcome(c, u, run[1..]) &&
            PeerTook(c, s, run) ==
            (if run[0].PeerTakes? then [s.h.out[run[0].k]] + PeerTook(c, u, run[1..]) else PeerTook(c, u, run[1..])) &&
            HostTook(c, s, run) ==
            (if run[0].HostTakes? then [s.r.out[run[0].k]] + HostTook(c, u, run[1..]) else HostTook(c, u, run[1..]))
    ensures Views(run) == if run[0].HostTakes? then [run[0].bytes] + Views(run[1..]) else Views(run[1..])
  {
    hide Next;
  }

  lemma TakenOut(out: seq<Frame>, k: nat)
    requires k < |out|
    ensures multiset(out) == multiset(Without(out, k)) + multiset{out[k]}
  {
    assert out == out[..k] + [out[k]] + out[k + 1..];
  }

  // ----- the receiver

  /** t comes from r by writing frames, and u from r with o for its connection by writing the same. */
  ghost predicate WritesAlike(r: Receiver, t: Receiver, o: seq<Frame>, u: Receiver) {
    r.out <= t.out && u == t.(out := o + t.out[|r.out|..])
  }

  lemma AlikeThen(r: Receiver, t: Receiver, v: Receiver, o: seq<Frame>, u: Receiver, w: Receiver)
    requires WritesAlike(r, t, o, u) && WritesAlike(t, v, u.out, w)
    ensures WritesAlike(r, v, o, w)
  {
    var m, n := t.out[|r.out|..], v.out[|t.out|..];
    assert v.out[|r.out|..] == m + n;
    assert o + (m + n) == o + m + n;
  }

  lemma {:induction false} FillAlike(r: Receiver, o: seq<Frame>)
    ensures WritesAlike(r, Fill(r), o, Fill(r.(out := o)))
    decreases |r.queue|
  {
    if r.outstanding < IN_FLIGHT && r.queue != [] {
      var u := r.(out := o);
      assert FillOne(u) == FillOne(r).(out := FillOne(u).out);
      FillAlike(FillOne(r), FillOne(u).out);
      AlikeThen(r, FillOne(r), Fill(r), o, FillOne(u), Fill(u));
    }
  }

  lemma {:induction false} ChargeAlike(r: Receiver, w: nat, bad: seq<nat>, o: seq<Frame>)
    requires w < |r.winRecv|
    requires r.sink.layout.chunk > 0 && forall k :: 0 <= k < |bad| ==> bad[k] < r.sink.layout.Chunks()
    ensures Charge(r.(out := o), w, bad) == Charge(r, w, bad).(out := o) && Charge(r, w, bad).out == r.out
    decreases |bad|
  {
    if bad != [] && r.Attempts(bad[0]) < MAX_ATTEMPTS {
      var v := ChargedOne(r, w, bad[0]);
      ChargeAlike(v, w, bad[1..], o);
      assert ChargedOne(r.(out := o), w, bad[0]) == v.(out := o);
    }
  }

  lemma ReactAlike(r: Receiver, f: Frame, o: seq<Frame>)
    requires Formed(r)
    ensures WritesAlike(r, React(r, f), o, React(r.(out := o), f))
  {
    hide OnData;
    hide OnHash;
    match f {
      case Data(i, offset, p) => DataAlike(r, i, offset, p, o);
      case Hash(first, count, hs) => HashAlike(r, first, count, hs, o);
      case _ =>
    }
  }

  lemma DataAlike(r: Receiver, i: nat, offset: nat, p: seq<byte>, o: seq<Frame>)
    requires Formed(r)
    ensures WritesAlike(r, OnData(r, i, offset, p), o, OnData(r.(out := o), i, offset, p))
  {
    hide Finish;
    if i < r.Chunks() && offset + |p| <= r.sink.layout.Span(i) {
      var part := PartialOf(r, i, r.sink.layout.Span(i));
      FinishAlike(r.(progress := r.progress + |p|), i, Splice(part.buf, offset, p), o);
    }
  }

  lemma FinishAlike(r: Receiver, i: nat, d: seq<byte>, o: seq<Frame>)
    requires i < |r.sink.disk| == |r.sink.held| == |r.sink.hashes|
    requires i / HASH_WINDOW < |r.winRecv| == |r.winState|
    ensures WritesAlike(r, Finish(r, i, d), o, Finish(r.(out := o), i, d))
  {
    hide Write;
  }

  lemma HashAlike(r: Receiver, first: nat, count: nat, hs: seq<byte>, o: seq<Frame>)
    requires Formed(r)
    ensures OnHash(r.(out := o), first, count, hs) == OnHash(r, first, count, hs).(out := o)
    ensures OnHash(r, first, count, hs).out == r.out
  {
    hide Charge;
    var w, bad := first / HASH_WINDOW, Bad(r.sink, first, hs);
    if r.Chunks() != 0 && w < Windows(r.Chunks()) {
      BadInRange(r.sink, first, hs);
      ChargeAlike(r.(sink := Verify(r.sink, first, hs), winState := r.winState[w := Pending]), w, bad, o);
    }
  }

  lemma HandleAlike(r: Receiver, f: Frame, o: seq<Frame>)
    requires Formed(r)
    ensures WritesAlike(r, Handle(r, f), o, Handle(r.(out := o), f))
  {
    hide React;
    hide Fill;
    ReactAlike(r, f, o);
    var t, u := React(r, f), React(r.(out := o), f);
    if t.fault.None? {
      FillAlike(t, u.out);
      AlikeThen(r, t, Fill(t), o, u, Fill(u));
    }
  }

  /** r is t, of whose frames those in taken are gone from the connection. */
  ghost predicate Drained(t: Receiver, r: Receiver, taken: multiset<Frame>) {
    r == t.(out := r.out) && multiset(t.out) == multiset(r.out) + taken
  }

  lemma HandleDrained(t: Receiver, r: Receiver, taken: multiset<Frame>, f: Frame)
    requires Formed(r) && Formed(t) && Drained(t, r, taken)
    ensures Drained(Handle(t, f), Handle(r, f), taken)
  {
    hide Handle;
    HandleAlike(r, f, t.out);
    var m := Handle(r, f).out[|r.out|..];
    assert Handle(r, f).out == r.out + m;
    assert t == r.(out := t.out);
  }

  /** The receiver's part in a step, done by t. */
  ghost function PeerDoes(s: Net, a: Label, t: Receiver): Receiver
    requires Formed(t) && (a.PeerTakes? ==> a.k < |s.h.out|)
  {
    if a.PeerTakes? then Handle(t, s.h.out[a.k]) else t
  }

  /** The frames gone to the host after a step. */
  ghost function Gone(s: Net, a: Label, taken: multiset<Frame>): multiset<Frame>
    requires a.HostTakes? ==> a.k < |s.r.out|
  {
    if a.HostTakes? then taken + multiset{s.r.out[a.k]} else taken
  }

  lemma PeerStepLoops(c: Setup, s: Net, a: Label, t: Receiver, taken: multiset<Frame>)
    requires Ready(c, s) && Enabled(c, s, a) && Formed(t) && Drained(t, s.r, taken)
    ensures Formed(PeerDoes(s, a, t)) && Drained(PeerDoes(s, a, t), Next(c, s, a).r, Gone(s, a, taken))
    ensures t.fault.None? && (a.PeerTakes? ==> !Finished(t))
  {
    hide Handle;
    match a
    case HostTakes(k, bytes) =>
      TakenOut(s.r.out, k);
    case PeerTakes(k) =>
      HandleDrained(t, s.r, taken, s.h.out[k]);
      HandleKeeps(t, s.h.out[k]);
    case Elsewhere(_, _) =>
  }

  lemma RunOnNext(t: Receiver, f: Frame, fs: seq<Frame>)
    requires Formed(t) && t.fault.None? && !Finished(t) && Formed(Handle(t, f))
    ensures RunOn(t, [f] + fs) == RunOn(Handle(t, f), fs)
  {
    assert ([f] + fs)[1..] == fs;
  }

  lemma {:induction false} PeerLoops(c: Setup, s: Net, run: seq<Label>, t: Receiver, taken: multiset<Frame>)
    requires Legal(c, s, run) && Formed(t) && Drained(t, s.r, taken)
    ensures Drained(RunOn(t, PeerTook(c, s, run)), Outcome(c, s, run).r, taken + multiset(HostTook(c, s, run)))
    decreases |run|
  {
    hide Handle;
    hide Next;
    hide Drained;
    hide Formed;
    if run != [] {
      var a, u := run[0], Next(c, s, run[0]);
      PeerStepLoops(c, s, a, t, taken);
      PeerLoops(c, u, run[1..], PeerDoes(s, a, t), Gone(s, a, taken));
      RunNext(c, s, run);
      hide PeerTook;
      hide HostTook;
      hide Outcome;
      hide RunOn;
      if a.PeerTakes? {
        RunOnNext(t, s.h.out[a.k], PeerTook(c, u, run[1..]));
      }
      assert Gone(s, a, taken) + multiset(HostTook(c, u, run[1..])) == taken + multiset(HostTook(c, s, run));
    } else {
      assert RunOn(t, []) == t && taken + multiset(HostTook(c, s, [])) == taken;
    }
  }

  /** Over any run of a session the receiver is, connection apart, where run gets
      with the frames it took; and of all frames run writes for them, exactly
      those the host took are no longer in transit. */
  lemma PeerIsRun(c: Setup, cache: map<nat, Digest>, run: seq<Label>)
    requires ValidSetup(c) && Legal(c, Initial(c, cache), run)
    ensures var s := Initial(c, cache);
            var r, t := Outcome(c, s, run).r, RunFrom(c.start, PeerTook(c, s, run));
            r == t.(out := r.out) && multiset(t.out) == multiset(r.out) + multiset(HostTook(c, s, run))
  {
    hide Start;
    hide RunOn;
    StartFormed(c.start);
    PeerLoops(c, Initial(c, cache), run, Start(c.start), multiset{});
  }

  // ----- the host

  /** The same of hosts. */
  ghost predicate ServesAlike(h: Host, t: Host, o: seq<Frame>, u: Host) {
    h.out <= t.out && u == t.(out := o + t.out[|h.out|..])
  }

  lemma ServeAlike(h: Host, f: Frame, bytes: seq<seq<byte>>, limit: nat, o: seq<Frame>)
    requires limit > DATA_HEADER
    ensures ServesAlike(h, Serve(h, f, bytes, limit), o, Serve(h.(out := o), f, bytes, limit))
  {
    hide Answer;
    hide MaybeDone;
    AnswerAlike(h, f, bytes, limit, o);
    var a, b := Answer(h, f, bytes, limit), Answer(h.(out := o), f, bytes, limit);
    DoneAlike(a, |bytes|, b.out);
    var m, n := a.out[|h.out|..], MaybeDone(a, |bytes|).out[|a.out|..];
    assert MaybeDone(a, |bytes|).out[|h.out|..] == m + n;
    assert o + (m + n) == o + m + n;
  }

  lemma AnswerAlike(h: Host, f: Frame, bytes: seq<seq<byte>>, limit: nat, o: seq<Frame>)
    requires limit > DATA_HEADER
    ensures ServesAlike(h, Answer(h, f, bytes, limit), o, Answer(h.(out := o), f, bytes, limit))
  {
    hide DataFrames;
    hide LearnRange;
  }

  lemma DoneAlike(h: Host, n: nat, o: seq<Frame>)
    ensures ServesAlike(h, MaybeDone(h, n), o, MaybeDone(h.(out := o), n))
  {
    hide RootOf;
  }

  ghost predicate HostDrained(t: Host, h: Host, taken: multiset<Frame>) {
    h == t.(out := h.out) && multiset(t.out) == multiset(h.out) + taken
  }

  lemma ServeDrained(t: Host, h: Host, taken: multiset<Frame>, f: Frame, bytes: seq<seq<byte>>, limit: nat)
    requires limit > DATA_HEADER && HostDrained(t, h, taken)
    ensures HostDrained(Serve(t, f, bytes, limit), Serve(h, f, bytes, limit), taken)
  {
    hide Serve;
    ServeAlike(h, f, bytes, limit, t.out);
    var m := Serve(h, f, bytes, limit).out[|h.out|..];
    assert Serve(h, f, bytes, limit).out == h.out + m;
    assert t == h.(out := t.out);
  }

  lemma {:induction false} ViewsMatch(c: Setup, s: Net, run: seq<Label>)
    requires Legal(c, s, run)
    ensures |Views(run)| == |HostTook(c, s, run)|
    decreases |run|
  {
    if run != [] {
      ViewsMatch(c, Next(c, s, run[0]), run[1..]);
    }
  }

  /** The host's part in a step, done by t. */
  ghost function HostDoes(c: Setup, s: Net, a: Label, t: Host): Host
    requires c.limit > DATA_HEADER && (a.HostTakes? ==> a.k < |s.r.out|)
  {
    if a.HostTakes? then Serve(t, s.r.out[a.k], a.bytes, c.limit) else t
  }

  /** The frames gone to the receiver after a step. */
  ghost function Delivered(s: Net, a: Label, taken: multiset<Frame>): multiset<Frame>
    requires a.PeerTakes? ==> a.k < |s.h.out|
  {
    if a.PeerTakes? then taken + multiset{s.h.out[a.k]} else taken
  }

  lemma HostStepServes(c: Setup, s: Net, a: Label, t: Host, taken: multiset<Frame>)
    requires Ready(c, s) && Enabled(c, s, a) && !a.Elsewhere? && HostDrained(t, s.h, taken)
    ensures HostDrained(HostDoes(c, s, a, t), Next(c, s, a).h, Delivered(s, a, taken))
    ensures a.HostTakes? ==> !t.closed
  {
    hide Serve;
    hide Handle;
    match a
    case HostTakes(k, bytes) =>
      ServeDrained(t, s.h, taken, s.r.out[k], bytes, c.limit);
    case PeerTakes(k) =>
      TakenOut(s.h.out, k);
  }

  lemma ServeAllNext(t: Host, f: Frame, fs: seq<Frame>, bytes: seq<seq<byte>>, views: seq<seq<seq<byte>>>, limit: nat)
    requires limit > DATA_HEADER && |views| == |fs| && !t.closed
    ensures ServeAll(t, [f] + fs, [bytes] + views, limit) == ServeAll(Serve(t, f, bytes, limit), fs, views, limit)
  {
    assert ([f] + fs)[1..] == fs && ([bytes] + views)[1..] == views;
  }

  /** Over any run in which no other session reads the source, the host is,
      connection apart, where serve gets from there with the frames it took; and
      of all frames it writes exactly those the receiver took are no longer in transit. */
  lemma {:induction false} HostIsServe(c: Setup, s: Net, run: seq<Label>, t: Host, taken: multiset<Frame>)
    requires Legal(c, s, run) && c.limit > DATA_HEADER && (forall k :: 0 <= k < |run| ==> !run[k].Elsewhere?)
    requires HostDrained(t, s.h, taken)
    ensures |Views(run)| == |HostTook(c, s, run)|
    ensures HostDrained(ServeAll(t, HostTook(c, s, run), Views(run), c.limit), Outcome(c, s, run).h,
                        taken + multiset(PeerTook(c, s, run)))
    decreases |run|
  {
    hide Serve;
    hide Next;
    hide HostDrained;
    ViewsMatch(c, s, run);
    if run != [] {
      var a, u := run[0], Next(c, s, run[0]);
      HostStepServes(c, s, a, t, taken);
      HostIsServe(c, u, run[1..], HostDoes(c, s, a, t), Delivered(s, a, taken));
      RunNext(c, s, run);
      hide PeerTook;
      hide HostTook;
      hide Outcome;
      hide ServeAll;
      hide Views;
      if a.HostTakes? {
        ServeAllNext(t, s.r.out[a.k], HostTook(c, u, run[1..]), a.bytes, Views(run[1..]), c.limit);
      }
      assert Delivered(s, a, taken) + multiset(PeerTook(c, u, run[1..])) == taken + multiset(PeerTook(c, s, run));
    } else {
      assert ServeAll(t, [], [], c.limit) == t && taken + multiset(PeerTook(c, s, [])) == taken;
    }
  }
}
