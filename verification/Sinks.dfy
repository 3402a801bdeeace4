/** The receiving store as a value: what is on disk chunk by chunk, which chunks
    are recorded as received with what hash, and what the sidecar file says. */
module Sinks {
  import opened Bytes
  import opened Sums
  import opened Layouts
  import opened Store

  /** Flush the sidecar after this many writes. */
  const FLUSH_EVERY: nat := 64

  /** What the sidecar file records: one bit and one hash a chunk. */
  datatype Sidecar = Sidecar(held: seq<bool>, hashes: seq<Digest>)

  datatype Sink = Sink(
    layout: Layout,
    disk: seq<seq<byte>>,
    held: seq<bool>,
    hashes: seq<Digest>,
    dirty: nat,
    saved: Option<Sidecar>)

  /** disk holds one byte string a chunk, of that chunk's length. */
  ghost predicate FitsChunks(l: Layout, disk: seq<seq<byte>>) {
    l.Valid() && |disk| == l.Chunks() && forall i: nat :: i < |disk| ==> |disk[i]| == l.Span(i)
  }

  ghost predicate Shaped(s: Sink) {
    FitsChunks(s.layout, s.disk) && |s.held| == |s.hashes| == |s.disk| &&
    (s.saved.Some? ==> |s.saved.value.held| == |s.saved.value.hashes| == |s.disk|)
  }

  /** 1 at each recorded chunk. */
  function HeldAt(held: seq<bool>): nat -> int {
    (i: nat) => if i < |held| && held[i] then 1 else 0
  }

  /** Number of recorded chunks. */
  function Count(held: seq<bool>): int {
    Total(|held|, HeldAt(held))
  }

  /** The length of each recorded chunk. */
  ghost function BytesAt(l: Layout, held: seq<bool>): nat -> int {
    (i: nat) => if l.chunk > 0 && i < |held| && held[i] && i < l.Chunks() then l.Span(i) else 0
  }

  /** Bytes of all recorded chunks. */
  ghost function ReceivedBytes(s: Sink): int {
    Total(|s.held|, BytesAt(s.layout, s.held))
  }

  predicate Complete(s: Sink) {
    Count(s.held) == |s.held|
  }

  /** The unrecorded chunks from k on, ascending. */
  function MissingFrom(held: seq<bool>, k: nat): seq<nat>
    decreases |held| - k
  {
    if k >= |held| then []
    else (if held[k] then [] else [k]) + MissingFrom(held, k + 1)
  }

  function Missing(s: Sink): seq<nat> {
    MissingFrom(s.held, 0)
  }

  function Root(s: Sink): Digest {
    Sha256(Flatten(s.hashes))
  }

  /** SaveSidecar. */
  function Flush(s: Sink): Sink {
    s.(saved := Some(Sidecar(s.held, s.hashes)), dirty := 0)
  }

  /** WriteChunk: bytes to disk, their hash recorded, the sidecar flushed every 64 writes. */
  function Write(s: Sink, i: nat, d: seq<byte>): Sink
    requires i < |s.disk| == |s.held| == |s.hashes|
  {
    var t := s.(disk := s.disk[i := d], hashes := s.hashes[i := Sha256(d)], held := s.held[i := true],
                dirty := s.dirty + 1);
    if t.dirty >= FLUSH_EVERY then Flush(t) else t
  }

  /** Chunk i is recorded and its hash disagrees with the host's, hs being the
      host's hashes from chunk first on. */
  predicate Mismatch(s: Sink, first: nat, hs: seq<byte>, i: nat)
    requires |s.held| == |s.hashes|
  {
    first <= i < |s.held| && 32 * (i - first) + 32 <= |hs| && s.held[i] && s.hashes[i] != DigestAt(hs, i - first)
  }

  /** The chunks Verify rejects, from chunk i on. */
  function BadFrom(s: Sink, first: nat, hs: seq<byte>, i: nat): seq<nat>
    requires |s.held| == |s.hashes| && first <= i
    decreases |s.held| - i
  {
    if 32 * (i - first) + 32 > |hs| || i >= |s.held| then []
    else (if Mismatch(s, first, hs, i) then [i] else []) + BadFrom(s, first, hs, i + 1)
  }

  function Bad(s: Sink, first: nat, hs: seq<byte>): seq<nat>
    requires |s.held| == |s.hashes|
  {
    BadFrom(s, first, hs, first)
  }

  /** held without the listed chunks. */
  function Cleared(held: seq<bool>, bad: seq<nat>): (r: seq<bool>)
    ensures |r| == |held|
    ensures forall i: nat :: i < |held| ==> r[i] == (held[i] && i !in bad)
  {
    seq(|held|, i requires 0 <= i < |held| => held[i] && i !in bad)
  }

  /** Verify: the rejected chunks lose their bit. */
  function Verify(s: Sink, first: nat, hs: seq<byte>): Sink
    requires |s.held| == |s.hashes|
  {
    s.(held := Cleared(s.held, Bad(s, first, hs)))
  }

  /** The sink a session starts from: memory loaded from the sidecar if there is
      one and it has the right lengths, nothing recorded otherwise; then saved. */
  function Open(l: Layout, disk: seq<seq<byte>>, saved: Option<Sidecar>): Sink
    requires l.chunk > 0
  {
    var n := l.Chunks();
    if saved.Some? && |saved.value.held| == n && |saved.value.hashes| == n then
      Flush(Sink(l, disk, saved.value.held, saved.value.hashes, 0, saved))
    else
      Flush(Sink(l, disk, seq(n, _ => false), seq(n, _ => seq(32, _ => 0)), 0, saved))
  }

  // ----- counts and lists

  /** All entries are set exactly when the count says so. */
  lemma CountFull(held: seq<bool>)
    ensures Count(held) == |held| <==> forall i: nat :: i < |held| ==> held[i]
  {
    var one := (i: nat) => 1;
    TotalConst(|held|, one, 1);
    TotalBounds(|held|, HeldAt(held), one);
    if forall i: nat :: i < |held| ==> held[i] {
      TotalSame(|held|, HeldAt(held), one);
    } else {
      var i: nat :| i < |held| && !held[i];
      assert HeldAt(held)(i) != one(i);
    }
  }

  /** All chunks are recorded exactly when the count says so. */
  lemma CompleteIff(s: Sink)
    ensures Complete(s) <==> forall i: nat :: i < |s.held| ==> s.held[i]
  {
    CountFull(s.held);
  }

  lemma {:induction false} TotalConst(n: nat, g: nat -> int, v: int)
    requires forall i: nat :: i < n ==> g(i) == v
    ensures Total(n, g) == n * v
  {
    if n > 0 {
      TotalConst(n - 1, g, v);
    }
  }

  ghost predicate Ascending(s: seq<nat>) {
    forall x, y :: 0 <= x < y < |s| ==> s[x] < s[y]
  }

  lemma AscendingCons(k: nat, rest: seq<nat>)
    requires Ascending(rest) && forall i :: i in rest ==> k < i
    ensures Ascending([k] + rest) && forall i :: i in [k] + rest <==> i == k || i in rest
  {
    var s := [k] + rest;
    forall x, y | 0 <= x < y < |s| ensures s[x] < s[y] {
      assert s[y] in rest;
    }
  }

  /** Missing is the ascending list of exactly the unrecorded chunks. */
  lemma {:induction false} MissingExact(held: seq<bool>, k: nat)
    ensures var m := MissingFrom(held, k);
            (forall i: nat :: i in m <==> k <= i < |held| && !held[i]) && Ascending(m)
    decreases |held| - k
  {
    hide Ascending;
    if k < |held| {
      MissingExact(held, k + 1);
      if !held[k] {
        AscendingCons(k, MissingFrom(held, k + 1));
      } else {
        assert MissingFrom(held, k) == MissingFrom(held, k + 1);
      }
    } else {
      NothingAscends();
    }
  }

  lemma NothingAscends()
    ensures Ascending([])
  {
  }

  lemma {:induction false} BadFromExact(s: Sink, first: nat, hs: seq<byte>, k: nat)
    requires |s.held| == |s.hashes| && first <= k
    ensures var b := BadFrom(s, first, hs, k);
            (forall i: nat :: i in b <==> k <= i && Mismatch(s, first, hs, i)) && Ascending(b)
    decreases |s.held| - k
  {
    hide DigestAt;
    hide Ascending;
    if 32 * (k - first) + 32 <= |hs| && k < |s.held| {
      BadFromExact(s, first, hs, k + 1);
      if Mismatch(s, first, hs, k) {
        AscendingCons(k, BadFrom(s, first, hs, k + 1));
      } else {
        assert BadFrom(s, first, hs, k) == BadFrom(s, first, hs, k + 1);
      }
    } else {
      NothingAscends();
    }
  }

  /** Verify rejects exactly the recorded chunks of the range whose hash differs, in ascending order. */
  lemma BadExact(s: Sink, first: nat, hs: seq<byte>)
    requires |s.held| == |s.hashes|
    ensures var b := Bad(s, first, hs);
            (forall i: nat :: i in b <==> Mismatch(s, first, hs, i)) && Distinct(b) && Ascending(b)
  {
    BadFromExact(s, first, hs, first);
  }

  /** Bytes recorded never exceed the size, and reach it exactly when complete. */
  lemma ReceivedBytesComplete(s: Sink)
    requires Shaped(s)
    ensures 0 <= ReceivedBytes(s) <= s.layout.size
    ensures ReceivedBytes(s) == s.layout.size <==> Complete(s)
  {
    var n := |s.held|;
    var all := seq(n, _ => true);
    var zero := (i: nat) => 0;
    SpanTotal(s.layout, all, n);
    TotalConst(n, zero, 0);
    TotalBounds(n, zero, BytesAt(s.layout, s.held));
    TotalBounds(n, BytesAt(s.layout, s.held), BytesAt(s.layout, all));
    CompleteIff(s);
    if Complete(s) {
      assert s.held == all;
    } else {
      var i: nat :| i < n && !s.held[i];
      assert BytesAt(s.layout, s.held)(i) == 0 < BytesAt(s.layout, all)(i);
    }
  }

  /** The first k spans sum to the offset of chunk k, all of them to the size. */
  lemma {:induction false} SpanTotal(l: Layout, all: seq<bool>, k: nat)
    requires l.Valid() && k <= |all| == l.Chunks() && forall i: nat :: i < |all| ==> all[i]
    ensures Total(k, BytesAt(l, all)) == if k == l.Chunks() then l.size else l.Off(k)
  {
    if k > 0 {
      SpanTotal(l, all, k - 1);
      SpansPartition(l, k - 1);
      OffInSize(l, k - 1);
    } else {
      OffInSize(l, 0);
    }
  }

  // ----- what the hashes say about the bytes

  /** The digests of a list of chunks. */
  function Digests(cs: seq<seq<byte>>): (r: seq<Digest>)
    ensures |r| == |cs| && forall i: nat :: i < |cs| ==> r[i] == Sha256(cs[i])
  {
    seq(|cs|, i requires 0 <= i < |cs| => Sha256(cs[i]))
  }

  /** Every recorded hash is the hash of what is on disk. */
  ghost predicate Recorded(s: Sink) {
    |s.held| == |s.hashes| == |s.disk| &&
    forall i: nat :: i < |s.held| && s.held[i] ==> s.hashes[i] == Sha256(s.disk[i])
  }

  /** Chunk i is recorded with the source's hash. */
  ghost predicate Good(held: seq<bool>, hashes: seq<Digest>, src: seq<seq<byte>>, i: nat) {
    i < |held| && i < |hashes| && i < |src| && held[i] && hashes[i] == Sha256(src[i])
  }

  /** Records with the source's hash are of chunks with the source's bytes, as far
      as hashes tell. Weaker than Recorded: other records may be stale. */
  ghost predicate Trusted(disk: seq<seq<byte>>, held: seq<bool>, hashes: seq<Digest>, src: seq<seq<byte>>) {
    forall i: nat :: i < |disk| && Good(held, hashes, src, i) ==> Sha256(disk[i]) == Sha256(src[i])
  }

  ghost predicate Trusts(s: Sink, src: seq<seq<byte>>) {
    Trusted(s.disk, s.held, s.hashes, src)
  }

  lemma RecordedTrusts(s: Sink, src: seq<seq<byte>>)
    requires Recorded(s)
    ensures Trusts(s, src)
  {
  }

  /** The chunks on disk are the source's, or two different chunks at the same
      place collide, or the recorded hashes and the source's differ and collide.
      Each alternative names the colliding inputs. */
  ghost predicate SameOrCollision(disk: seq<seq<byte>>, hashes: seq<Digest>, src: seq<seq<byte>>) {
    disk == src ||
    (|disk| == |src| && exists i: nat :: i < |disk| && Collides(disk[i], src[i])) ||
    Collides(Flatten(hashes), Flatten(Digests(src)))
  }

  /** A complete sink that can be trusted and has the source's root has the source's bytes. */
  lemma RootDecides(s: Sink, src: seq<seq<byte>>)
    requires Shaped(s) && Complete(s) && Trusts(s, src) && |src| == |s.disk|
    requires Root(s) == Sha256(Flatten(Digests(src)))
    ensures SameOrCollision(s.disk, s.hashes, src)
  {
    CompleteIff(s);
    if Flatten(s.hashes) == Flatten(Digests(src)) {
      FlattenInjective(s.hashes, Digests(src));
      forall i: nat | i < |src| ensures Sha256(s.disk[i]) == Sha256(src[i]) {
        assert Good(s.held, s.hashes, src, i);
      }
      HashesDecide(s.disk, s.hashes, src);
    }
  }

  /** Chunk lists with equal digests are equal or exhibit a collision. */
  lemma HashesDecide(disk: seq<seq<byte>>, hashes: seq<Digest>, src: seq<seq<byte>>)
    requires |disk| == |src| && forall i: nat :: i < |src| ==> Sha256(disk[i]) == Sha256(src[i])
    ensures SameOrCollision(disk, hashes, src)
  {
    if disk != src {
      var i: nat :| i < |disk| && disk[i] != src[i];
      assert Collides(disk[i], src[i]);
    }
  }

  /** The files on disk are the source's, or some chunk of theirs collides with the
      source's, or the recorded hashes and the source's do. */
  ghost predicate SameFilesOrCollision(l: Layout, files: seq<seq<byte>>, hashes: seq<Digest>, srcFiles: seq<seq<byte>>)
    requires l.Valid() && Fits(l, files) && Fits(l, srcFiles)
  {
    files == srcFiles ||
    (exists i: nat :: i < l.Chunks() && Collides(ChunksOf(l, files)[i], ChunksOf(l, srcFiles)[i])) ||
    Collides(Flatten(hashes), Flatten(Digests(ChunksOf(l, srcFiles))))
  }

  /** What is said of chunks holds of whole files, empty ones included. */
  lemma SameFiles(l: Layout, files: seq<seq<byte>>, hashes: seq<Digest>, srcFiles: seq<seq<byte>>)
    requires l.Valid() && Fits(l, files) && Fits(l, srcFiles)
    requires SameOrCollision(ChunksOf(l, files), hashes, ChunksOf(l, srcFiles))
    ensures SameFilesOrCollision(l, files, hashes, srcFiles)
  {
    FlatSize(l, files);
    FlatSize(l, srcFiles);
    if ChunksOf(l, files) == ChunksOf(l, srcFiles) {
      ChunksDetermineFiles(l, files, srcFiles);
    }
  }

  lemma ChunksOfFit(l: Layout, files: seq<seq<byte>>)
    requires l.Valid() && Fits(l, files)
    ensures FitsChunks(l, ChunksOf(l, files))
  {
  }

  lemma WriteTrusts(s: Sink, i: nat, d: seq<byte>, src: seq<seq<byte>>)
    requires i < |s.disk| == |s.held| == |s.hashes| && Trusts(s, src)
    ensures Trusts(Write(s, i, d), src)
  {
    var t := Write(s, i, d);
    forall j: nat | j < |t.disk| && Good(t.held, t.hashes, src, j) ensures Sha256(t.disk[j]) == Sha256(src[j]) {
      assert j != i ==> Good(s.held, s.hashes, src, j);
    }
  }

  /** Writing keeps the shape and the trust, whatever is written. */
  lemma WriteKeeps(s: Sink, i: nat, d: seq<byte>)
    requires Shaped(s) && i < |s.held| && |d| == s.layout.Span(i)
    ensures Shaped(Write(s, i, d))
    ensures forall src :: Trusts(s, src) ==> Trusts(Write(s, i, d), src)
  {
    forall src | Trusts(s, src) ensures Trusts(Write(s, i, d), src) {
      WriteTrusts(s, i, d, src);
    }
  }

  /** So does verifying. */
  lemma VerifyKeeps(s: Sink, first: nat, hs: seq<byte>)
    requires Shaped(s)
    ensures Shaped(Verify(s, first, hs))
    ensures forall src :: Trusts(s, src) ==> Trusts(Verify(s, first, hs), src)
  {
    forall src | Trusts(s, src) ensures Trusts(Verify(s, first, hs), src) {
      var t := Verify(s, first, hs);
      forall j: nat | j < |t.disk| && Good(t.held, t.hashes, src, j) ensures Sha256(t.disk[j]) == Sha256(src[j]) {
        assert Good(s.held, s.hashes, src, j);
      }
    }
  }

  /** Writing chunk i records it and leaves the count one higher if it was missing. */
  lemma WriteCounts(s: Sink, i: nat, d: seq<byte>)
    requires i < |s.disk| == |s.held| == |s.hashes|
    ensures Count(Write(s, i, d).held) == Count(s.held) + if s.held[i] then 0 else 1
  {
    TotalChange(|s.held|, HeldAt(s.held), HeldAt(s.held[i := true]), i);
  }

  /** Verify lowers the count by the number of chunks it rejects. */
  lemma VerifyCounts(s: Sink, first: nat, hs: seq<byte>)
    requires |s.held| == |s.hashes|
    ensures Count(Verify(s, first, hs).held) == Count(s.held) - |Bad(s, first, hs)|
  {
    var bad := Bad(s, first, hs);
    BadExact(s, first, hs);
    assert forall k :: 0 <= k < |bad| ==> bad[k] in bad;
    DroppedCount(s.held, bad);
  }

  lemma DroppedCount(held: seq<bool>, bad: seq<nat>)
    requires Distinct(bad) && forall k :: 0 <= k < |bad| ==> bad[k] < |held| && held[bad[k]]
    ensures Count(Cleared(held, bad)) == Count(held) - |bad|
  {
    var minus := (i: nat) => -1;
    ListSumConst(bad, minus, -1);
    TotalList(|held|, HeldAt(held), HeldAt(Cleared(held, bad)), bad, minus);
  }
}
