/** File contents seen as one run of bytes: gathering a byte range from the
    files, scattering one into them, and cutting the run into chunks. */
module Store {
  import opened Bytes
  import opened Layouts

  /** The files' contents back to back. */
  function Flat(fs: seq<seq<byte>>): seq<byte> {
    if fs == [] then [] else Flat(fs[..|fs| - 1]) + fs[|fs| - 1]
  }

  /** The contents have the sizes the layout declares. */
  ghost predicate Fits(l: Layout, fs: seq<seq<byte>>) {
    |fs| == |l.files| && forall i :: 0 <= i < |fs| ==> |fs[i]| == l.files[i]
  }

  function Splice(s: seq<byte>, off: nat, d: seq<byte>): (r: seq<byte>)
    requires off + |d| <= |s|
    ensures |r| == |s|
  {
    s[..off] + d + s[off + |d|..]
  }

  lemma {:induction false} FlatStart(l: Layout, fs: seq<seq<byte>>, i: nat)
    requires l.Valid() && Fits(l, fs) && i <= |fs|
    ensures |Flat(fs[..i])| == SizeOf(l.files[..i])
  {
    if i > 0 {
      FlatStart(l, fs, i - 1);
      SizeOfNext(l.files, i - 1);
      assert fs[..i][..i - 1] == fs[..i - 1];
    }
  }

  lemma FlatSize(l: Layout, fs: seq<seq<byte>>)
    requires l.Valid() && Fits(l, fs)
    ensures |Flat(fs)| == l.size
  {
    FlatStart(l, fs, |fs|);
    assert fs[..|fs|] == fs && l.files[..|fs|] == l.files;
  }

  /** Contents up to file i, then file i, then the rest. */
  lemma {:induction false} FlatSplit(fs: seq<seq<byte>>, i: nat) returns (rest: seq<byte>)
    requires i < |fs|
    ensures Flat(fs) == Flat(fs[..i]) + fs[i] + rest
    decreases |fs|
  {
    var n := |fs| - 1;
    if i == n {
      rest := [];
    } else {
      var r := FlatSplit(fs[..n], i);
      assert fs[..n][..i] == fs[..i];
      rest := r + fs[n];
    }
  }

  /** A byte range inside one file, read off the concatenation. */
  lemma FlatSlice(l: Layout, fs: seq<seq<byte>>, i: nat, a: nat, b: nat)
    requires l.Valid() && Fits(l, fs) && i < |fs| && a <= b <= |fs[i]|
    ensures l.starts[i] + b <= |Flat(fs)|
    ensures Flat(fs)[l.starts[i] + a..l.starts[i] + b] == fs[i][a..b]
  {
    var rest := FlatSplit(fs, i);
    FlatStart(l, fs, i);
    var s := l.starts[i];
    var flat := Flat(fs);
    assert flat[s..s + |fs[i]|] == fs[i];
    SliceOfSlice(flat, s, s + |fs[i]|, a, b);
  }

  lemma SpliceRight(a: seq<byte>, b: seq<byte>, at: nat, d: seq<byte>)
    requires at + |d| <= |b|
    ensures Splice(a + b, |a| + at, d) == a + Splice(b, at, d)
  {
  }

  lemma SpliceLeft(a: seq<byte>, b: seq<byte>, at: nat, d: seq<byte>)
    requires at + |d| <= |a|
    ensures Splice(a + b, at, d) == Splice(a, at, d) + b
  {
  }

  /** Overwriting a range of one file overwrites that range of the concatenation and nothing else. */
  lemma {:induction false} FlatSplice(fs: seq<seq<byte>>, i: nat, at: nat, d: seq<byte>)
    requires i < |fs| && at + |d| <= |fs[i]|
    ensures |Flat(fs[..i])| + at + |d| <= |Flat(fs)|
    ensures Flat(fs[i := Splice(fs[i], at, d)]) == Splice(Flat(fs), |Flat(fs[..i])| + at, d)
    decreases |fs|
  {
    var n := |fs| - 1;
    var gs := fs[i := Splice(fs[i], at, d)];
    hide Splice;
    if i == n {
      assert gs[..n] == fs[..n];
      SpliceRight(Flat(fs[..n]), fs[n], at, d);
    } else {
      FlatSplice(fs[..n], i, at, d);
      assert gs[..n] == fs[..n][i := Splice(fs[i], at, d)];
      assert fs[..n][..i] == fs[..i];
      SpliceLeft(Flat(fs[..n]), fs[n], |Flat(fs[..i])| + at, d);
    }
  }

  /** Equal concatenations of equally sized files are equal files. */
  lemma FlatInjective(l: Layout, a: seq<seq<byte>>, b: seq<seq<byte>>)
    requires l.Valid() && Fits(l, a) && Fits(l, b) && Flat(a) == Flat(b)
    ensures a == b
  {
    forall i | 0 <= i < |a| ensures a[i] == b[i] {
      FlatSlice(l, a, i, 0, |a[i]|);
      FlatSlice(l, b, i, 0, |b[i]|);
    }
  }

  // ----- chunks of the concatenation

  function Piece(l: Layout, flat: seq<byte>, i: nat): (d: seq<byte>)
    requires l.chunk > 0 && |flat| == l.size && i < l.Chunks()
    ensures |d| == l.Span(i)
  {
    var off, n := l.Off(i), l.Span(i);
    assert off + n <= l.size;
    flat[off..off + n]
  }

  /** All chunks in order. */
  function Cut(l: Layout, flat: seq<byte>): (c: seq<seq<byte>>)
    requires l.chunk > 0 && |flat| == l.size
    ensures |c| == l.Chunks()
    ensures forall i: nat :: i < |c| ==> c[i] == Piece(l, flat, i)
  {
    seq(l.Chunks(), i requires 0 <= i < l.Chunks() => Piece(l, flat, i))
  }

  /** Writing chunk i changes chunk i and no byte of any other chunk. */
  lemma CutSplice(l: Layout, flat: seq<byte>, i: nat, d: seq<byte>)
    requires l.Valid() && |flat| == l.size && i < l.Chunks() && |d| == l.Span(i)
    ensures Cut(l, Splice(flat, l.Off(i), d)) == Cut(l, flat)[i := d]
  {
    var g := Splice(flat, l.Off(i), d);
    forall j: nat | j < l.Chunks() ensures Piece(l, g, j) == if j == i then d else Piece(l, flat, j) {
      if j < i {
        SpansDisjoint(l, j, i);
        SpliceOutside(flat, l.Off(i), d, l.Off(j), l.Off(j) + l.Span(j));
      } else if i < j {
        SpansDisjoint(l, i, j);
        SpliceOutside(flat, l.Off(i), d, l.Off(j), l.Off(j) + l.Span(j));
      } else {
        SpliceInside(flat, l.Off(i), d);
      }
    }
  }

  lemma SpliceInside(s: seq<byte>, off: nat, d: seq<byte>)
    requires off + |d| <= |s|
    ensures Splice(s, off, d)[off..off + |d|] == d
  {
  }

  lemma SpliceOutside(s: seq<byte>, off: nat, d: seq<byte>, a: nat, b: nat)
    requires off + |d| <= |s| && a <= b <= |s| && (b <= off || off + |d| <= a)
    ensures Splice(s, off, d)[a..b] == s[a..b]
  {
    var x, y := Splice(s, off, d)[a..b], s[a..b];
    assert forall k :: 0 <= k < b - a ==> x[k] == Splice(s, off, d)[a + k] == s[a + k] == y[k];
  }

  /** The chunks determine every byte. */
  lemma CutInjective(l: Layout, a: seq<byte>, b: seq<byte>)
    requires l.Valid() && |a| == |b| == l.size && Cut(l, a) == Cut(l, b)
    ensures a == b
  {
    forall k: nat | k < l.size ensures a[k] == b[k] {
      ChunkOfByte(l, k);
      var i := ChunkOf(l, k);
      assert Piece(l, a, i) == Cut(l, a)[i] == Cut(l, b)[i] == Piece(l, b, i);
      assert a[k] == Piece(l, a, i)[k - l.Off(i)];
      assert b[k] == Piece(l, b, i)[k - l.Off(i)];
    }
  }

  /** Files of the same layout with the same chunks are the same files. */
  lemma ChunksDetermineFiles(l: Layout, a: seq<seq<byte>>, b: seq<seq<byte>>)
    requires l.Valid() && Fits(l, a) && Fits(l, b)
    requires |Flat(a)| == |Flat(b)| == l.size
    requires Cut(l, Flat(a)) == Cut(l, Flat(b))
    ensures a == b
  {
    CutInjective(l, Flat(a), Flat(b));
    FlatInjective(l, a, b);
  }

  /** The chunks of a list of files. */
  ghost function ChunksOf(l: Layout, fs: seq<seq<byte>>): (c: seq<seq<byte>>)
    requires l.Valid() && Fits(l, fs)
  {
    FlatSize(l, fs);
    Cut(l, Flat(fs))
  }

  /** The concatenation after writing, in the given order, the listed chunks of src over disk. */
  function Copied(l: Layout, disk: seq<byte>, src: seq<byte>, order: seq<nat>): (r: seq<byte>)
    requires l.chunk > 0 && |disk| == |src| == l.size
    requires forall k :: 0 <= k < |order| ==> order[k] < l.Chunks()
    ensures |r| == l.size
    decreases |order|
  {
    if order == [] then disk
    else Copied(l, Splice(disk, l.Off(order[0]), Piece(l, src, order[0])), src, order[1..])
  }

  /** After a copy, the chunks written hold the source's bytes and the others what they held. */
  lemma {:induction false} CopiedChunks(l: Layout, disk: seq<byte>, src: seq<byte>, order: seq<nat>)
    requires l.Valid() && |disk| == |src| == l.size
    requires forall k :: 0 <= k < |order| ==> order[k] < l.Chunks()
    ensures forall i: nat :: i < l.Chunks() ==>
              Cut(l, Copied(l, disk, src, order))[i] == if i in order then Piece(l, src, i) else Cut(l, disk)[i]
    decreases |order|
  {
    if order != [] {
      var i := order[0];
      CutSplice(l, disk, i, Piece(l, src, i));
      CopiedChunks(l, Splice(disk, l.Off(i), Piece(l, src, i)), src, order[1..]);
      assert order == [i] + order[1..];
    }
  }

  /** Copying every chunk at least once, in any order and with any repeats,
      reproduces the source, whatever was there before. */
  lemma CopyReproduces(l: Layout, disk: seq<byte>, src: seq<byte>, order: seq<nat>)
    requires l.Valid() && |disk| == |src| == l.size
    requires forall k :: 0 <= k < |order| ==> order[k] < l.Chunks()
    ensures (forall i: nat :: i < l.Chunks() ==> i in order) ==> Copied(l, disk, src, order) == src
  {
    if forall i: nat :: i < l.Chunks() ==> i in order {
      CopiedChunks(l, disk, src, order);
      var r := Copied(l, disk, src, order);
      assert Cut(l, r) == Cut(l, src);
      CutInjective(l, r, src);
    }
  }

  /** In terms of files: whatever files of the right sizes hold the result of such
      a copy, they are the source's files, empty ones included. */
  lemma CopyReproducesFiles(l: Layout, disk: seq<seq<byte>>, src: seq<seq<byte>>, order: seq<nat>, fs: seq<seq<byte>>)
    requires l.Valid() && Fits(l, disk) && Fits(l, src) && Fits(l, fs)
    requires forall k :: 0 <= k < |order| ==> order[k] < l.Chunks()
    requires forall i: nat :: i < l.Chunks() ==> i in order
    requires |Flat(disk)| == |Flat(src)| == l.size && Flat(fs) == Copied(l, Flat(disk), Flat(src), order)
    ensures fs == src
  {
    hide Flat;
    hide Copied;
    CopyReproduces(l, Flat(disk), Flat(src), order);
    FlatInjective(l, fs, src);
  }

  // ----- files as mutable arrays

  ghost function Contents(files: seq<array<byte>>): (c: seq<seq<byte>>)
    reads files
    ensures |c| == |files| && forall i :: 0 <= i < |files| ==> c[i] == files[i][..]
  {
    seq(|files|, i requires 0 <= i < |files| reads files => files[i][..])
  }

  /** One open file a declared file, each of the declared size, no two the same. */
  ghost predicate Opened(l: Layout, files: seq<array<byte>>) {
    |files| == |l.files| &&
    (forall i :: 0 <= i < |files| ==> files[i].Length == l.files[i]) &&
    (forall i, j :: 0 <= i < j < |files| ==> files[i] != files[j])
  }

  /** The bytes of all files together. */
  ghost function Whole(l: Layout, files: seq<array<byte>>): (w: seq<byte>)
    requires l.Valid() && Opened(l, files)
    reads files
    ensures |w| == l.size
  {
    FlatSize(l, Contents(files));
    Flat(Contents(files))
  }

  method WriteAt(f: array<byte>, at: nat, d: seq<byte>)
    requires at + |d| <= f.Length
    modifies f
    ensures f[..] == Splice(old(f[..]), at, d)
  {
    forall k | 0 <= k < |d| {
      f[at + k] := d[k];
    }
  }

  /** The write loop: data into the files it spans, from byte off on. */
  method Scatter(l: Layout, files: seq<array<byte>>, off: nat, data: seq<byte>)
    requires l.Valid() && Opened(l, files) && off + |data| <= l.size
    modifies files
    ensures Whole(l, files) == Splice(old(Whole(l, files)), off, data)
  {
    hide Whole;
    hide Splice;
    hide SizeOf;
    hide Flat;
    NoFilesNoBytes(l);
    var segs := Segments(l, off, |data|);
    SpliceNothing(Whole(l, files), off, data);
    assert data[..|data|] == data;
    ghost var was := Whole(l, files);
    var pos := 0;
    ghost var at, left := off, |data|;
    for k := 0 to |segs|
      invariant 0 <= pos <= |data| && at == off + pos && left == |data| - pos
      invariant Tiles(l, at, left, segs, k)
      invariant Whole(l, files) == Splice(was, off, data[..pos])
    {
      WriteSegment(l, files, segs[k], data, pos, at);
      SpliceNext(was, off, at, data, pos, segs[k].n);
      pos, at, left := pos + segs[k].n, at + segs[k].n, left - segs[k].n;
    }
  }

  /** One WriteAt of the loop, seen on the concatenation. */
  method WriteSegment(l: Layout, files: seq<array<byte>>, s: Segment, data: seq<byte>, pos: nat, ghost at: nat)
    requires l.Valid() && Opened(l, files) && Holds(l, s.file, at) && s.inFile == at - l.starts[s.file]
    requires pos + s.n <= |data| && s.inFile + s.n <= l.files[s.file] && at + s.n <= l.size
    modifies files
    ensures Whole(l, files) == Splice(old(Whole(l, files)), at, data[pos..pos + s.n])
  {
    hide SizeOf;
    hide Flat;
    ghost var before := Contents(files);
    var d := data[pos..pos + s.n];
    FlatStart(l, before, s.file);
    FlatSplice(before, s.file, s.inFile, d);
    WriteAt(files[s.file], s.inFile, d);
    assert Contents(files) == before[s.file := Splice(before[s.file], s.inFile, d)];
  }

  lemma SpliceNext(s: seq<byte>, off: nat, at: nat, d: seq<byte>, pos: nat, n: nat)
    requires off + |d| <= |s| && pos + n <= |d| && at == off + pos
    ensures Splice(Splice(s, off, d[..pos]), at, d[pos..pos + n]) == Splice(s, off, d[..pos + n])
  {
    assert d[..pos] + d[pos..pos + n] == d[..pos + n];
  }

  lemma SpliceNothing(s: seq<byte>, off: nat, d: seq<byte>)
    requires off + |d| <= |s|
    ensures Splice(s, off, d[..0]) == s
  {
  }

  lemma NoFilesNoBytes(l: Layout)
    requires l.Valid()
    ensures |l.files| == 0 ==> l.size == 0
  {
  }

  /** The read loop: n bytes from byte off on, into the front of buf. */
  method Gather(l: Layout, files: seq<array<byte>>, off: nat, n: nat, buf: array<byte>)
    requires l.Valid() && Opened(l, files) && off + n <= l.size && n <= buf.Length
    requires buf !in files
    modifies buf
    ensures buf[..n] == Whole(l, files)[off..off + n]
    ensures Whole(l, files) == old(Whole(l, files))
  {
    hide Whole;
    hide SizeOf;
    hide Flat;
    NoFilesNoBytes(l);
    var segs := Segments(l, off, n);
    ghost var whole := Whole(l, files);
    var pos := 0;
    ghost var at, left := off, n;
    for k := 0 to |segs|
      invariant 0 <= pos <= n && at == off + pos && left == n - pos
      invariant Tiles(l, at, left, segs, k)
      invariant Whole(l, files) == whole
      invariant buf[..pos] == whole[off..at]
    {
      ReadSegment(l, files, segs[k], buf, pos, at);
      SliceNext(whole, off, at, segs[k].n);
      pos, at, left := pos + segs[k].n, at + segs[k].n, left - segs[k].n;
    }
  }

  lemma SliceNext(s: seq<byte>, off: nat, at: nat, n: nat)
    requires off <= at && at + n <= |s|
    ensures s[off..at] + s[at..at + n] == s[off..at + n]
  {
  }

  /** One ReadAt of the loop, seen on the concatenation. */
  method ReadSegment(l: Layout, files: seq<array<byte>>, s: Segment, buf: array<byte>, pos: nat, ghost at: nat)
    requires l.Valid() && Opened(l, files) && Holds(l, s.file, at) && s.inFile == at - l.starts[s.file]
    requires pos + s.n <= buf.Length && s.inFile + s.n <= l.files[s.file] && at + s.n <= l.size
    requires buf !in files
    modifies buf
    ensures Whole(l, files) == old(Whole(l, files))
    ensures buf[..pos + s.n] == old(buf[..pos]) + Whole(l, files)[at..at + s.n]
  {
    FlatSlice(l, Contents(files), s.file, s.inFile, s.inFile + s.n);
    ReadAt(files[s.file], s.inFile, s.n, buf, pos);
    assert Contents(files) == old(Contents(files));
  }

  method ReadAt(f: array<byte>, at: nat, n: nat, buf: array<byte>, pos: nat)
    requires at + n <= f.Length && pos + n <= buf.Length && f != buf
    modifies buf
    ensures buf[..pos + n] == old(buf[..pos]) + f[at..at + n]
  {
    forall j | 0 <= j < n {
      buf[pos + j] := f[at + j];
    }
  }
}
