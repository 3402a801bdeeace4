/** How much a receiver can lose: what its memory records beyond the sidecar. */
module Losses {
  import opened Bytes
  import opened Layouts
  import opened Sinks
  import opened Wire
  import opened Store
  import opened Receivers

  /** The chunks recorded in memory of which the sidecar knows nothing, or another hash. */
  ghost function Unsaved(s: Sink, saved: Sidecar): set<nat>
    requires |s.held| == |s.hashes| == |saved.held| == |saved.hashes|
  {
    set i: nat | i < |s.held| && s.held[i] && !(saved.held[i] && saved.hashes[i] == s.hashes[i])
  }

  /** There is a sidecar, written fewer than 64 writes ago, and it lacks no more than those. */
  ghost predicate LossBounded(s: Sink) {
    Shaped(s) && s.saved.Some? && s.dirty < 64 && |Unsaved(s, s.saved.value)| <= s.dirty
  }

  /** The writes since the last flush are counted, and the 64th saves everything. */
  lemma WriteFlushes(s: Sink, i: nat, d: seq<byte>)
    requires Shaped(s) && i < |s.held| && s.dirty < 64
    ensures var t := Write(s, i, d);
            t.dirty == (s.dirty + 1) % 64 &&
            t.saved == if t.dirty == 0 then Some(Sidecar(t.held, t.hashes)) else s.saved
  {
  }

  lemma Fewer(a: set<nat>, b: set<nat>)
    requires a <= b
    ensures |a| <= |b|
  {
    assert b == a + (b - a);
  }

  lemma NothingUnsaved(s: Sink)
    requires |s.held| == |s.hashes|
    ensures Unsaved(s, Sidecar(s.held, s.hashes)) == {}
  {
  }

  lemma WriteLoses(s: Sink, i: nat, d: seq<byte>)
    requires LossBounded(s) && i < |s.held| && |d| == s.layout.Span(i)
    ensures LossBounded(Write(s, i, d))
  {
    WriteFlushes(s, i, d);
    var t, saved := Write(s, i, d), s.saved.value;
    NothingUnsaved(t);
    Fewer(Unsaved(t, saved), Unsaved(s, saved) + {i});
  }

  lemma VerifyLoses(s: Sink, first: nat, hs: seq<byte>)
    requires LossBounded(s)
    ensures LossBounded(Verify(s, first, hs))
  {
    Fewer(Unsaved(Verify(s, first, hs), s.saved.value), Unsaved(s, s.saved.value));
  }

  /** An opened sink has just been saved. */
  lemma OpenLoses(l: Layout, disk: seq<seq<byte>>, saved: Option<Sidecar>)
    requires FitsChunks(l, disk)
    ensures LossBounded(Open(l, disk, saved)) && Open(l, disk, saved).dirty == 0
  {
    NothingUnsaved(Open(l, disk, saved));
  }

  lemma ReactLoses(r: Receiver, f: Frame)
    requires Formed(r) && LossBounded(r.sink)
    ensures LossBounded(React(r, f).sink)
  {
    hide LossBounded;
    hide Write;
    hide Bad;
    hide Charge;
    hide Splice;
    match f {
      case Data(i, offset, p) =>
        if i < r.Chunks() && offset + |p| <= r.sink.layout.Span(i) {
          WriteLoses(r.sink, i, Splice(PartialOf(r, i, r.sink.layout.Span(i)).buf, offset, p));
        }
      case Hash(first, count, hs) =>
        VerifyLoses(r.sink, first, hs);
        var w := first / HASH_WINDOW;
        if r.Chunks() != 0 && w < Windows(r.Chunks()) {
          BadInRange(r.sink, first, hs);
          RejectFrame(r.(sink := Verify(r.sink, first, hs)), w, Bad(r.sink, first, hs));
        }
      case _ =>
    }
  }

  lemma HandleLoses(r: Receiver, f: Frame)
    requires Formed(r) && LossBounded(r.sink)
    ensures LossBounded(Handle(r, f).sink)
  {
    hide React;
    hide Fill;
    ReactLoses(r, f);
    FillFrame(React(r, f));
  }

  lemma {:induction false} RunOnLoses(r: Receiver, fs: seq<Frame>)
    requires Formed(r) && LossBounded(r.sink)
    ensures LossBounded(RunOn(r, fs).sink)
    decreases |fs|
  {
    hide Handle;
    hide LossBounded;
    if fs != [] && !Finished(r) && r.fault.None? {
      HandleKeeps(r, fs[0]);
      HandleLoses(r, fs[0]);
      RunOnLoses(Handle(r, fs[0]), fs[1..]);
    }
  }

  /** Whatever frames arrive: at any moment at most 63 chunks are recorded in memory and not in the sidecar. */
  lemma AnyHostLoss(s: Sink, fs: seq<Frame>)
    requires LossBounded(s)
    ensures LossBounded(RunFrom(s, fs).sink)
  {
    StartFormed(s);
    RunOnLoses(Start(s), fs);
  }
}
