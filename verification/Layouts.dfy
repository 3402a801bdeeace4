/** Files laid back to back, the chunks cut from the concatenation, and the
    pieces of files a byte range falls into. */
module Layouts {
  import opened Bytes
  import Wire

  /** A layout: total size, chunk size, the size of each file and the offset of
      each file in the concatenation. Paths play no part in the arithmetic. */
  datatype Layout = Layout(size: nat, chunk: nat, files: seq<nat>, starts: seq<nat>) {
    ghost predicate Valid() {
      0 < chunk <= Wire.CHUNK_SIZE && |starts| == |files| &&
      (forall i :: 0 <= i < |files| ==> starts[i] == SizeOf(files[..i])) &&
      size == SizeOf(files)
    }

    /** Number of chunks. Stated by steps of one chunk; ChunkArithmetic ties
        this, Off and Span to the closed forms. */
    function Chunks(): nat
      requires chunk > 0
    {
      Steps(size, chunk)
    }

    /** Offset of chunk i. */
    function Off(i: nat): nat {
      if i == 0 then 0 else Off(i - 1) + chunk
    }

    /** Length of chunk i. */
    function Span(i: nat): (n: nat)
      requires chunk > 0 && i < Chunks()
      ensures 0 < n <= chunk && Off(i) + n <= size
    {
      SpanFits(this, i);
      if size - Off(i) < chunk then size - Off(i) else chunk
    }
  }

  /** Steps of c needed to cover n. */
  function Steps(n: int, c: nat): nat
    requires c > 0
    decreases n
  {
    if n <= 0 then 0 else 1 + Steps(n - c, c)
  }

  function SizeOf(files: seq<nat>): nat {
    if files == [] then 0 else SizeOf(files[..|files| - 1]) + files[|files| - 1]
  }

  lemma SizeOfNext(files: seq<nat>, i: nat)
    requires i < |files|
    ensures SizeOf(files[..i + 1]) == SizeOf(files[..i]) + files[i]
  {
    assert files[..i + 1][..i] == files[..i];
  }

  lemma {:induction false} SizeOfMonotone(files: seq<nat>, i: nat, j: nat)
    requires i <= j <= |files|
    ensures SizeOf(files[..i]) <= SizeOf(files[..j])
  {
    if i < j {
      SizeOfMonotone(files, i, j - 1);
      SizeOfNext(files, j - 1);
    }
  }

  datatype BadManifest = BadChunkSize | BadFile(index: nat)

  /** A declared file: its size, and whether safePath accepts its path. */
  datatype Entry = Entry(size: int, safe: bool)

  predicate GoodEntry(e: Entry) {
    e.size >= 0 && e.safe
  }

  /** NewLayout over the declared files. */
  method NewLayout(entries: seq<Entry>, chunk: int) returns (r: Result<Layout, BadManifest>)
    ensures r.Ok? <==> 0 < chunk <= Wire.CHUNK_SIZE && forall i :: 0 <= i < |entries| ==> GoodEntry(entries[i])
    ensures r.Ok? ==> r.value.Valid() && r.value.chunk == chunk &&
                      |r.value.files| == |entries| &&
                      forall i :: 0 <= i < |entries| ==> r.value.files[i] == entries[i].size
    ensures r.Err? && r.error.BadFile? ==>
              r.error.index < |entries| && !GoodEntry(entries[r.error.index]) &&
              forall i :: 0 <= i < r.error.index ==> GoodEntry(entries[i])
    ensures r.Err? && r.error.BadChunkSize? ==> chunk <= 0 || chunk > Wire.CHUNK_SIZE
  {
    if chunk <= 0 || chunk > Wire.CHUNK_SIZE {
      return Err(BadChunkSize);
    }
    var files: seq<nat>, starts: seq<nat>, size: nat := [], [], 0;
    for i := 0 to |entries|
      invariant |files| == |starts| == i && size == SizeOf(files)
      invariant forall k :: 0 <= k < i ==> GoodEntry(entries[k]) && files[k] == entries[k].size
      invariant forall k :: 0 <= k < i ==> starts[k] == SizeOf(files[..k])
    {
      if entries[i].size < 0 || !entries[i].safe {
        return Err(BadFile(i));
      }
      starts := starts + [size];
      size := size + entries[i].size;
      ghost var before := files;
      files := files + [entries[i].size];
      assert files[..i] == before;
      assert forall k :: 0 <= k < i ==> files[..k] == before[..k];
    }
    r := Ok(Layout(size, chunk, files, starts));
  }

  // ----- chunks

  /** Chunks() as computed: the quotient rounded up. */
  function ChunkCount(size: nat, chunk: nat): nat
    requires chunk > 0
  {
    if size == 0 then 0 else (size + chunk - 1) / chunk
  }

  /** ChunkSpan as computed: offset and length of chunk i. */
  function ChunkSpan(l: Layout, i: nat): (int, int) {
    var off := i * l.chunk;
    (off, if l.size - off < l.chunk then l.size - off else l.chunk)
  }

  lemma ChunkArithmetic(l: Layout, i: nat)
    requires l.Valid()
    ensures l.Chunks() == ChunkCount(l.size, l.chunk)
    ensures i < l.Chunks() ==> ChunkSpan(l, i) == (l.Off(i), l.Span(i))
  {
    if l.size > 0 {
      StepsQuotient(l.size, l.chunk);
    }
    OffProduct(l, i);
  }

  lemma {:induction false} StepsQuotient(n: nat, c: nat)
    requires c > 0 && n > 0
    ensures Steps(n, c) == (n + c - 1) / c
  {
    if n <= c {
      assert (n + c - 1) / c == 1 by { QuotientIs(n + c - 1, c, 1); }
      assert Steps(n, c) == 1 + Steps(n - c, c) == 1;
    } else {
      StepsQuotient(n - c, c);
      var q := (n - 1) / c;
      DivBounds(n - 1, c);
      assert (q + 1) * c == q * c + c;
      QuotientIs(n + c - 1, c, q + 1);
    }
  }

  lemma QuotientIs(b: nat, c: nat, q: nat)
    requires c > 0 && q * c <= b < q * c + c
    ensures b / c == q
  {
    var p := b / c;
    DivBounds(b, c);
    if p < q {
      Product(p + 1, q, c);
    } else if q < p {
      Product(q + 1, p, c);
    }
  }

  /** Multiplying by c respects order, and one step up adds c. */
  lemma {:induction false} Product(a: nat, b: nat, c: nat)
    requires a <= b
    ensures a * c <= b * c
    ensures a > 0 ==> a * c == (a - 1) * c + c
  {
    if a < b {
      Product(a, b - 1, c);
      assert b * c == (b - 1) * c + c;
    }
  }

  lemma DivBounds(b: nat, c: nat)
    requires c > 0
    ensures b / c * c <= b < b / c * c + c
  {
    assert b == b / c * c + b % c;
  }

  lemma {:induction false} OffProduct(l: Layout, i: nat)
    ensures l.Off(i) == i * l.chunk
  {
    if i > 0 {
      OffProduct(l, i - 1);
      assert i * l.chunk == (i - 1) * l.chunk + l.chunk;
    }
  }

  lemma {:induction false} OffMonotone(l: Layout, i: nat, j: nat)
    requires i <= j
    ensures l.Off(i) <= l.Off(j)
  {
    if i < j {
      OffMonotone(l, i, j - 1);
    }
  }

  /** A chunk index is below the count exactly when its offset is below the size. */
  lemma {:induction false} OffInSize(l: Layout, i: nat)
    requires l.chunk > 0
    ensures Steps(l.size - l.Off(i), l.chunk) == if i <= l.Chunks() then l.Chunks() - i else 0
    ensures i < l.Chunks() <==> l.Off(i) < l.size
  {
    if i > 0 {
      OffInSize(l, i - 1);
    }
  }

  lemma SpanFits(l: Layout, i: nat)
    requires l.chunk > 0 && i < l.Chunks()
    ensures l.Off(i) < l.size
    ensures i + 1 < l.Chunks() <==> l.Off(i + 1) < l.size
  {
    OffInSize(l, i);
    OffInSize(l, i + 1);
  }

  /** Chunk spans partition the bytes: every chunk is non-empty and inside the
      concatenation, each starts where the one before it ends, and the last one
      ends at the end. */
  lemma SpansPartition(l: Layout, i: nat)
    requires l.Valid() && i < l.Chunks()
    ensures 0 < l.Span(i) <= l.chunk
    ensures l.Off(i) + l.Span(i) == if i + 1 < l.Chunks() then l.Off(i + 1) else l.size
    ensures l.Off(0) == 0
  {
    SpanFits(l, i);
  }

  /** The chunk a byte belongs to. */
  function ChunkOf(l: Layout, b: nat): nat
    requires l.chunk > 0
  {
    b / l.chunk
  }

  /** Every byte of the concatenation lies in a chunk, the one its offset divides to. */
  lemma ChunkOfByte(l: Layout, b: nat)
    requires l.Valid() && b < l.size
    ensures ChunkOf(l, b) < l.Chunks()
    ensures l.Off(ChunkOf(l, b)) <= b < l.Off(ChunkOf(l, b)) + l.Span(ChunkOf(l, b))
  {
    var i := ChunkOf(l, b);
    DivBounds(b, l.chunk);
    OffProduct(l, i);
    OffInSize(l, i);
  }

  /** Distinct chunks share no byte. */
  lemma SpansDisjoint(l: Layout, i: nat, j: nat)
    requires l.Valid() && i < j < l.Chunks()
    ensures l.Off(i) + l.Span(i) <= l.Off(j)
  {
    SpansPartition(l, i);
    OffMonotone(l, i + 1, j);
  }

  // ----- files

  /** File fi holds byte off of the concatenation. */
  ghost predicate Holds(l: Layout, fi: nat, off: nat)
    requires |l.starts| == |l.files|
  {
    fi < |l.files| && l.starts[fi] <= off < l.starts[fi] + l.files[fi]
  }

  /** At most one file holds a byte, so a file that holds one is not empty and no
      other choice was possible. */
  lemma HoldsUnique(l: Layout, f: nat, g: nat, off: nat)
    requires l.Valid() && Holds(l, f, off) && Holds(l, g, off)
    ensures f == g
  {
    if f < g {
      SizeOfNext(l.files, f);
      SizeOfMonotone(l.files, f + 1, g);
    } else if g < f {
      SizeOfNext(l.files, g);
      SizeOfMonotone(l.files, g + 1, f);
    }
  }

  lemma StartsSorted(l: Layout, i: nat, j: nat)
    requires l.Valid() && i <= j < |l.starts|
    ensures l.starts[i] <= l.starts[j]
  {
    SizeOfMonotone(l.files, i, j);
  }

  /** fileAt: sort.Search for the first start beyond off, less one. Inside the
      layout it finds the file holding off; past its end, the last file. */
  method FileAt(l: Layout, off: nat) returns (fi: nat)
    requires l.Valid()
    ensures off < l.size ==> Holds(l, fi, off)
    ensures off >= l.size && |l.files| > 0 ==> fi == |l.files| - 1 && off >= l.starts[fi] + l.files[fi]
  {
    var lo, hi := 0, |l.starts|;
    while lo < hi
      invariant 0 <= lo <= hi <= |l.starts|
      invariant forall k :: 0 <= k < lo ==> l.starts[k] <= off
      invariant forall k :: hi <= k < |l.starts| ==> l.starts[k] > off
    {
      var mid := (lo + hi) / 2;
      forall k | 0 <= k < |l.starts| ensures k <= mid ==> l.starts[k] <= l.starts[mid]
                                     ensures mid <= k ==> l.starts[mid] <= l.starts[k]
      {
        if k <= mid { StartsSorted(l, k, mid); } else { StartsSorted(l, mid, k); }
      }
      if l.starts[mid] > off {
        hi := mid;
      } else {
        lo := mid + 1;
      }
    }
    fi := if lo == 0 then 0 else lo - 1;
    assert l.files[..|l.files|] == l.files;
    if lo > 0 {
      SizeOfNext(l.files, lo - 1);
      SizeOfMonotone(l.files, lo, |l.files|);
    }
    if off >= l.size && |l.files| > 0 {
      forall k | 0 <= k < |l.files| ensures l.starts[k] <= l.size {
        SizeOfMonotone(l.files, k, |l.files|);
      }
    }
  }

  datatype Segment = Segment(file: nat, inFile: nat, n: nat)

  /** From the k-th on, segs are consecutive non-empty pieces, each inside one
      file, that together cover exactly [off, off + n). */
  ghost predicate Tiles(l: Layout, off: nat, n: nat, segs: seq<Segment>, k: nat)
    requires |l.starts| == |l.files|
    decreases |segs| - k
  {
    if k >= |segs| then n == 0
    else
      var s := segs[k];
      0 < s.n <= n && Holds(l, s.file, off) && s.inFile == off - l.starts[s.file] &&
      s.inFile + s.n <= l.files[s.file] &&
      Tiles(l, off + s.n, n - s.n, segs, k + 1)
  }

  /** The piece runs to the end of its file. */
  ghost predicate ToEnd(l: Layout, s: Segment) {
    s.file < |l.files| && s.inFile + s.n == l.files[s.file]
  }

  /** Adding the next piece to a tiling. */
  lemma {:induction false} TilesAppend(l: Layout, off: nat, n: nat, segs: seq<Segment>, k: nat, s: Segment)
    requires l.Valid() && k <= |segs| && Tiles(l, off, n, segs, k) && 0 < s.n
    requires Holds(l, s.file, off + n) && s.inFile == off + n - l.starts[s.file]
    requires s.inFile + s.n <= l.files[s.file]
    ensures Tiles(l, off, n + s.n, segs + [s], k)
    decreases |segs| - k
  {
    if k < |segs| {
      TilesAppend(l, off + segs[k].n, n - segs[k].n, segs, k + 1, s);
    }
  }

  /** The part of [off, off + n) that lies inside the layout. */
  function Inside(l: Layout, off: nat, n: int): nat {
    if n <= 0 || off >= l.size then 0 else Min(n, l.size - off)
  }

  /** segments: walks the files from off on. It tiles what of the range lies
      inside the layout, so all of it for every range within; the guard against
      a range past the end is the only way to stop early. */
  method Segments(l: Layout, off: nat, n: int) returns (out: seq<Segment>)
    requires l.Valid()
    requires n > 0 ==> |l.files| > 0
    ensures Tiles(l, off, Inside(l, off, n), out, 0)
    ensures off + n <= l.size && n >= 0 ==> Tiles(l, off, n, out, 0)
    ensures forall k :: 0 <= k < |out| - 1 ==> ToEnd(l, out[k])
  {
    out := [];
    var at, left := off, n;
    while left > 0
      invariant off <= at && 0 <= at - off <= Inside(l, off, n) && left == n - (at - off)
      invariant Tiles(l, off, at - off, out, 0)
      invariant forall k :: 0 <= k < |out| && (left > 0 || k < |out| - 1) ==> ToEnd(l, out[k])
    {
      var fi := FileAt(l, at);
      var inFile := at - l.starts[fi];
      var avail := l.files[fi] - inFile;
      if avail <= 0 {
        break;
      }
      var k := left;
      if k > avail {
        k := avail;
      }
      FileInside(l, fi);
      TilesAppend(l, off, at - off, out, 0, Segment(fi, inFile, k));
      out := out + [Segment(fi, inFile, k)];
      at := at + k;
      left := left - k;
    }
  }

  lemma FileInside(l: Layout, fi: nat)
    requires l.Valid() && fi < |l.files|
    ensures l.starts[fi] + l.files[fi] <= l.size
  {
    SizeOfNext(l.files, fi);
    SizeOfMonotone(l.files, fi + 1, |l.files|);
    assert l.files[..|l.files|] == l.files;
  }
}
