/** The sink as it runs: files, bitmap and flat hash array changed in place, and
    the sidecar file. Every method is proved against module Sinks. */
module SinkFiles {
  import opened Bytes
  import opened Sums
  import opened Layouts
  import opened Store
  import opened Sinks
  import opened Bitmap

  /** The sidecar file, its bitmap and hashes as the byte strings they encode. */
  datatype PartFile = PartFile(id: string, size: nat, chunk: nat, bitmap: seq<bv8>, hashes: seq<byte>)

  /** loadSidecar takes a sidecar only of the same share, size and chunk size, and of the right lengths. */
  predicate Usable(l: Layout, id: string, p: PartFile)
    requires l.chunk > 0
  {
    p.id == id && p.size == l.size && p.chunk == l.chunk &&
    |p.bitmap| == BytesFor(l.Chunks()) && |p.hashes| == 32 * l.Chunks()
  }

  /** What a usable sidecar records. */
  function RecordOf(l: Layout, p: PartFile): Sidecar
    requires l.chunk > 0 && |p.bitmap| == BytesFor(l.Chunks()) && |p.hashes| == 32 * l.Chunks()
  {
    Sidecar(Bits(p.bitmap, l.Chunks()), DigestList(p.hashes, l.Chunks()))
  }

  /** The sidecar a session is opened with, if there is a usable one. */
  function Loaded(l: Layout, id: string, stored: Option<PartFile>): Option<Sidecar>
    requires l.chunk > 0
  {
    if stored.Some? && Usable(l, id, stored.value) then Some(RecordOf(l, stored.value)) else None
  }

  class SinkFile {
    const layout: Layout
    const id: string
    const files: seq<array<byte>>
    const bitmap: array<bv8>
    const hashes: array<byte>
    var received: int
    var dirty: nat
    var sidecar: Option<PartFile>

    /** The parts have the sizes the layout asks for and do not overlap. */
    ghost predicate Sized()
      reads this
    {
      layout.Valid() && Opened(layout, files) && bitmap.Length == BytesFor(layout.Chunks()) &&
      hashes.Length == 32 * layout.Chunks() && hashes !in files &&
      (bitmap as object) != hashes && (forall k :: 0 <= k < |files| ==> (files[k] as object) != bitmap) &&
      (sidecar.Some? ==> Usable(layout, id, sidecar.value))
    }

    /** ... and received counts the bits. */
    ghost predicate Valid()
      reads this, bitmap
    {
      Sized() && received == Count(Bits(bitmap[..], layout.Chunks()))
    }

    ghost function Held(): seq<bool>
      requires Sized()
      reads this, bitmap
    {
      Bits(bitmap[..], layout.Chunks())
    }

    ghost function Hashes(): seq<Digest>
      requires Sized()
      reads this, hashes
    {
      DigestList(hashes[..], layout.Chunks())
    }

    ghost function Disk(): seq<seq<byte>>
      requires Sized()
      reads this, files
    {
      Cut(layout, Whole(layout, files))
    }

    ghost function Saved(): Option<Sidecar>
      requires Sized()
      reads this
    {
      if sidecar.Some? then Some(RecordOf(layout, sidecar.value)) else None
    }

    /** The sink as a value. */
    ghost function State(): (s: Sink)
      requires Sized()
      reads this, bitmap, hashes, files
      ensures Shaped(s) && s.layout == layout && |s.held| == layout.Chunks()
    {
      Sink(layout, Disk(), Held(), Hashes(), dirty, Saved())
    }

    /** OpenSink: the files as found on disk, memory from the sidecar if it is usable. */
    constructor (l: Layout, shareId: string, handles: seq<array<byte>>, stored: Option<PartFile>)
      requires l.Valid() && Opened(l, handles)
      ensures Valid() && layout == l && id == shareId && files == handles && fresh(bitmap) && fresh(hashes)
      ensures State() == Open(l, Cut(l, Whole(l, handles)), Loaded(l, shareId, stored))
    {
      var n := l.Chunks();
      layout, id, files, dirty, sidecar := l, shareId, handles, 0, None;
      var usable := stored.Some? && Usable(l, shareId, stored.value);
      var bits := if usable then stored.value.bitmap else seq(BytesFor(n), _ => 0);
      var digests := if usable then stored.value.hashes else seq(32 * n, _ => 0);
      bitmap := new bv8[BytesFor(n)](k requires 0 <= k < |bits| => bits[k]);
      hashes := new byte[32 * n](k requires 0 <= k < |digests| => digests[k]);
      received := 0;
      new;
      assert bitmap[..] == bits && hashes[..] == digests;
      if !usable {
        NothingHeld(bits, digests, n);
      }
      CountReceived();
      SaveSidecar();
    }

    /** loadSidecar's count of the bits. */
    method CountReceived()
      requires Sized() && received == 0
      modifies this`received
      ensures Valid()
    {
      hide Bits;
      var n := layout.Chunks();
      for i := 0 to n
        invariant received == Total(i, HeldAt(Held()))
      {
        var h := Has(i);
        if h {
          received := received + 1;
        }
      }
    }

    /** SaveSidecar: written aside and renamed, so it is replaced as a whole. */
    method SaveSidecar()
      requires Valid()
      modifies this`dirty, this`sidecar
      ensures Valid() && State() == Flush(old(State()))
    {
      sidecar := Some(PartFile(id, layout.size, layout.chunk, bitmap[..], hashes[..]));
      dirty := 0;
    }

    method Has(i: nat) returns (h: bool)
      requires Sized() && i < layout.Chunks()
      ensures h == Held()[i]
    {
      h := Bit(bitmap[i / 8], i % 8);
    }

    method SetBit(i: nat)
      requires Sized() && i < layout.Chunks()
      modifies bitmap
      ensures Held() == old(Held())[i := true]
    {
      SetOne(bitmap[..], layout.Chunks(), i);
      ghost var was := bitmap[..];
      bitmap[i / 8] := bitmap[i / 8] | Mask(i % 8);
      assert bitmap[..] == was[i / 8 := was[i / 8] | Mask(i % 8)];
    }

    method ClearBit(i: nat)
      requires Sized() && i < layout.Chunks()
      modifies bitmap
      ensures Held() == old(Held())[i := false]
    {
      ClearOne(bitmap[..], layout.Chunks(), i);
      ghost var was := bitmap[..];
      bitmap[i / 8] := bitmap[i / 8] & !Mask(i % 8);
      assert bitmap[..] == was[i / 8 := was[i / 8] & !Mask(i % 8)];
    }

    /** Bytes received: full chunks but for the last one. */
    method ReceivedBytes() returns (b: int)
      requires Sized()
      ensures b == Sinks.ReceivedBytes(State())
    {
      hide Bits;
      hide Cut;
      hide Whole;
      var n := layout.Chunks();
      b := 0;
      for i := 0 to n
        invariant b == Total(i, BytesAt(layout, Held()))
      {
        SpansPartition(layout, i);
        SpanFits(layout, i);
        var h := Has(i);
        if h {
          if i == n - 1 {
            b := b + layout.Span(i);
          } else {
            b := b + layout.chunk;
          }
        }
      }
    }

    method Missing() returns (out: seq<nat>)
      requires Sized()
      ensures out == Sinks.Missing(State())
    {
      hide Bits;
      hide MissingFrom;
      hide Count;
      hide Opened;
      hide Whole;
      hide Cut;
      hide DigestList;
      out := [];
      ghost var held := Held();
      MissingEnds(held, []);
      for i := 0 to layout.Chunks()
        invariant held == Held() && out + MissingFrom(held, i) == MissingFrom(held, 0)
      {
        var h := Has(i);
        MissingStep(held, i, out);
        if !h {
          out := out + [i];
        }
      }
      MissingEnds(held, out);
    }

    /** copy(hashes[32*i:], sum). */
    method PutHash(i: nat, sum: Digest)
      requires Sized() && i < layout.Chunks()
      modifies hashes
      ensures Hashes() == old(Hashes())[i := sum]
    {
      forall k | 0 <= k < 32 {
        hashes[32 * i + k] := sum[k];
      }
      assert hashes[..][32 * i..32 * i + 32] == sum;
      PutDigest(old(hashes[..]), layout.Chunks(), i, sum, hashes[..]);
    }

    /** WriteChunk: the bytes into the files, their hash and bit recorded, the
        sidecar flushed every 64 writes; refused when the length is not the chunk's. */
    method WriteChunk(i: nat, data: seq<byte>) returns (ok: bool)
      requires Valid() && i < layout.Chunks()
      modifies this`received, this`dirty, this`sidecar, bitmap, hashes, files
      ensures Valid() && ok == (|data| == layout.Span(i))
      ensures State() == if ok then Write(old(State()), i, data) else old(State())
    {
      if |data| != layout.Span(i) {
        return false;
      }
      ok := true;
      hide State;
      StoreChunk(i, data);
      if dirty >= FLUSH_EVERY {
        SaveSidecar();
      }
    }

    /** The chunk on disk, its hash and its bit; the sidecar not yet. */
    method StoreChunk(i: nat, data: seq<byte>)
      requires Valid() && i < layout.Chunks() && |data| == layout.Span(i)
      modifies this`received, this`dirty, bitmap, hashes, files
      ensures Valid() && dirty == old(dirty) + 1
      ensures var s := old(State());
              State() == s.(disk := s.disk[i := data], hashes := s.hashes[i := Sha256(data)],
                            held := s.held[i := true], dirty := s.dirty + 1)
    {
      hide Whole;
      hide Bits;
      hide DigestList;
      hide Cut;
      hide Count;
      WriteBytes(i, data);
      PutHash(i, Sha256(data));
      MarkHeld(i);
      dirty := dirty + 1;
    }

    /** The write loop over the files chunk i spans. */
    method WriteBytes(i: nat, data: seq<byte>)
      requires Sized() && i < layout.Chunks() && |data| == layout.Span(i)
      modifies files
      ensures Disk() == old(Disk())[i := data]
    {
      hide Whole;
      CutSplice(layout, Whole(layout, files), i, data);
      Scatter(layout, files, layout.Off(i), data);
    }

    /** Sets the bit of chunk i and counts it if it was clear. */
    method MarkHeld(i: nat)
      requires Valid() && i < layout.Chunks()
      modifies this`received, bitmap
      ensures Valid() && Held() == old(Held())[i := true]
    {
      TotalChange(layout.Chunks(), HeldAt(Held()), HeldAt(Held()[i := true]), i);
      var h := Has(i);
      if !h {
        SetBit(i);
        received := received + 1;
      }
    }

    /** Clears the bit of a held chunk. */
    method MarkMissing(i: nat)
      requires Valid() && i < layout.Chunks() && Held()[i]
      modifies this`received, bitmap
      ensures Valid() && Held() == old(Held())[i := false]
    {
      TotalChange(layout.Chunks(), HeldAt(Held()), HeldAt(Held()[i := false]), i);
      ClearBit(i);
      received := received - 1;
    }

    /** Whether chunk i is held with a hash other than the k-th of hs. */
    method Differs(i: nat, hs: seq<byte>, k: nat) returns (d: bool)
      requires Sized() && i < layout.Chunks() && 32 * k + 32 <= |hs|
      ensures d == (Held()[i] && Hashes()[i] != DigestAt(hs, k))
    {
      d := Has(i);
      if d {
        d := hashes[32 * i..32 * i + 32] != hs[32 * k..32 * k + 32];
        assert DigestAt(hashes[..], i) == hashes[32 * i..32 * i + 32];
      }
    }

    /** Verify: compares the host's hashes from chunk first on, clears and returns the mismatches. */
    method Verify(first: nat, hs: seq<byte>) returns (bad: seq<nat>)
      requires Valid()
      modifies this`received, bitmap
      ensures Valid() && bad == Bad(old(State()), first, hs)
      ensures State() == Sinks.Verify(old(State()), first, hs)
    {
      hide Whole;
      hide Bits;
      hide BadFrom;
      hide Count;
      hide Cut;
      hide Opened;
      hide DigestList;
      hide Usable;
      bad := [];
      ghost var s := State();
      var k := 0;
      assert Cleared(s.held, []) == s.held;
      while 32 * k + 32 <= |hs| && first + k < layout.Chunks()
        invariant Valid() && 0 <= k && Held() == Cleared(s.held, bad) && Hashes() == s.hashes
        invariant forall i :: i in bad ==> i < first + k
        invariant bad + BadFrom(s, first, hs, first + k) == Bad(s, first, hs)
        decreases |hs| - 32 * k
      {
        var i := first + k;
        var d := Differs(i, hs, k);
        BadStep(s, first, hs, i, bad, d);
        if d {
          MarkMissing(i);
          ClearedOne(s.held, bad, i);
          bad := bad + [i];
        }
        k := k + 1;
      }
      BadEnds(s, first, hs, first + k, bad);
    }

    method Complete() returns (c: bool)
      requires Valid()
      ensures c == Sinks.Complete(State())
    {
      c := received == layout.Chunks();
    }

    /** SHA-256 over the flat hash array. */
    method Root() returns (r: Digest)
      requires Sized()
      ensures r == Sinks.Root(State())
    {
      FlattenCut(hashes[..], Hashes());
      r := Sha256(hashes[..]);
    }
  }

  /** OpenSink over the files of the share: refused when the destination exists
      already and there is no usable sidecar to resume from. */
  method OpenSink(l: Layout, shareId: string, handles: seq<array<byte>>, stored: Option<PartFile>, present: bool)
    returns (s: Option<SinkFile>)
    requires l.Valid() && Opened(l, handles)
    ensures s.None? <==> present && Loaded(l, shareId, stored).None?
    ensures s.Some? ==> s.value.Valid() && fresh(s.value) && s.value.layout == l && s.value.files == handles &&
                        s.value.State() == Open(l, Cut(l, Whole(l, handles)), Loaded(l, shareId, stored))
  {
    var resuming := stored.Some? && Usable(l, shareId, stored.value);
    if !resuming && present {
      return None;
    }
    var sink := new SinkFile(l, shareId, handles, stored);
    s := Some(sink);
  }

  /** The sidecar a sink leaves is taken up, as it is, by the next sink of the same
      share if size and chunk size are the same, and by no other. */
  lemma Reopens(s: SinkFile, l: Layout, shareId: string)
    requires s.Valid() && s.sidecar.Some? && l.Valid()
    ensures Loaded(l, shareId, s.sidecar) ==
            if shareId == s.id && l.size == s.layout.size && l.chunk == s.layout.chunk then s.Saved() else None
  {
    if l.size == s.layout.size && l.chunk == s.layout.chunk {
      assert l.Chunks() == s.layout.Chunks();
    }
  }

  lemma NothingHeld(bm: seq<bv8>, hs: seq<byte>, n: nat)
    requires |bm| == BytesFor(n) && |hs| == 32 * n
    requires (forall k :: 0 <= k < |bm| ==> bm[k] == 0) && forall k :: 0 <= k < |hs| ==> hs[k] == 0
    ensures Bits(bm, n) == seq(n, _ => false)
    ensures DigestList(hs, n) == seq(n, _ => seq(32, _ => 0))
  {
    forall i: nat | i < n ensures DigestAt(hs, i) == seq(32, _ => 0) {
    }
  }

  /** One turn of Missing. */
  lemma MissingStep(held: seq<bool>, i: nat, out: seq<nat>)
    requires i < |held|
    ensures out + MissingFrom(held, i) == (if held[i] then out else out + [i]) + MissingFrom(held, i + 1)
  {
    Append(out, i, MissingFrom(held, i + 1));
  }

  lemma MissingEnds(held: seq<bool>, out: seq<nat>)
    ensures out + MissingFrom(held, |held|) == out
    ensures [] + MissingFrom(held, 0) == MissingFrom(held, 0)
  {
  }

  lemma ClearedOne(held: seq<bool>, bad: seq<nat>, i: nat)
    requires i < |held|
    ensures Cleared(held, bad)[i := false] == Cleared(held, bad + [i])
  {
  }

  /** One comparison of Verify. */
  lemma BadStep(s: Sink, first: nat, hs: seq<byte>, i: nat, bad: seq<nat>, d: bool)
    requires |s.held| == |s.hashes| && first <= i < |s.held| && 32 * (i - first) + 32 <= |hs|
    requires d == Mismatch(s, first, hs, i)
    ensures bad + BadFrom(s, first, hs, i) == (if d then bad + [i] else bad) + BadFrom(s, first, hs, i + 1)
  {
    Append(bad, i, BadFrom(s, first, hs, i + 1));
  }

  lemma BadEnds(s: Sink, first: nat, hs: seq<byte>, i: nat, bad: seq<nat>)
    requires |s.held| == |s.hashes| && first <= i && (32 * (i - first) + 32 > |hs| || i >= |s.held|)
    ensures bad + BadFrom(s, first, hs, i) == bad
  {
  }

  lemma Append(a: seq<nat>, i: nat, rest: seq<nat>)
    ensures a + [i] + rest == a + ([i] + rest)
  {
  }
}
