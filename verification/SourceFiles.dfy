/** The sending side's chunk reader and hash cache as they run. */
module SourceFiles {
  import opened Bytes
  import opened Sums
  import opened Layouts
  import opened Store
  import opened Sinks
  import opened Hosts

  class SourceFile {
    const layout: Layout
    const files: seq<array<byte>>
    const hashes: array<Digest>
    const have: array<bool>
    var known: int

    ghost predicate Sized()
      reads this
    {
      layout.Valid() && Opened(layout, files) && hashes.Length == have.Length == layout.Chunks() &&
      (hashes as object) != have &&
      forall k :: 0 <= k < |files| ==> (files[k] as object) != hashes && (files[k] as object) != have
    }

    /** known counts the cached hashes; the entries of the others are still zero. */
    ghost predicate Valid()
      reads this, have, hashes
    {
      Sized() && known == Count(have[..]) && forall i :: 0 <= i < have.Length && !have[i] ==> hashes[i] == Unset()
    }

    /** The hash cache as a map. */
    ghost function Cache(): (c: map<nat, Digest>)
      requires Sized()
      reads this, hashes, have
      ensures forall i: nat :: i in c <==> i < layout.Chunks() && have[i]
      ensures forall i: nat :: i in c ==> c[i] == hashes[i]
    {
      map i: nat | i < have.Length && have[i] :: hashes[i]
    }

    /** The files' contents now, chunk by chunk. */
    ghost function Chunks(): seq<seq<byte>>
      requires Sized()
      reads this, files
    {
      Cut(layout, Whole(layout, files))
    }

    constructor (l: Layout, handles: seq<array<byte>>)
      requires l.Valid() && Opened(l, handles)
      ensures Valid() && layout == l && files == handles && fresh(hashes) && fresh(have) && Cache() == map[]
    {
      var n := l.Chunks();
      var hs, hv := new Digest[n](_ => Unset()), new bool[n](_ => false);
      layout, files, hashes, have, known := l, handles, hs, hv, 0;
      new;
      NoneHeld(have[..]);
    }

    /** Records the hash of chunk i if none is recorded. */
    method Remember(i: nat, sum: Digest)
      requires Valid() && i < layout.Chunks()
      modifies this`known, hashes, have
      ensures Valid() && Cache() == if i in old(Cache()) then old(Cache()) else old(Cache())[i := sum]
    {
      if !have[i] {
        TotalChange(have.Length, HeldAt(have[..]), HeldAt(have[..][i := true]), i);
        ghost var was := have[..];
        hashes[i], have[i] := sum, true;
        assert have[..] == was[i := true];
        known := known + 1;
      }
    }

    /** ReadChunk: the chunk into buf, or into a new buffer when buf is too small;
        its hash is cached the first time only. */
    method ReadChunk(i: int, buf: array<byte>) returns (ok: bool, out: array<byte>, n: nat)
      requires Valid() && buf !in files && (buf as object) != hashes && (buf as object) != have
      modifies this`known, hashes, have, buf
      ensures Valid() && Chunks() == old(Chunks()) && (out == buf || fresh(out))
      ensures ok == (0 <= i < layout.Chunks())
      ensures ok ==> n <= out.Length && out[..n] == Chunks()[i] && Cache() == Learn(old(Cache()), i, Chunks()[i])
      ensures !ok ==> Cache() == old(Cache()) && out == buf
      ensures ok ==> (out == buf <==> buf.Length >= n)
    {
      hide Whole;
      ok, out, n := false, buf, 0;
      if i < 0 || i >= layout.Chunks() {
        return;
      }
      ok, n := true, layout.Span(i);
      if out.Length < n {
        out := new byte[n];
      }
      Gather(layout, files, layout.Off(i), n, out);
      assert out[..n] == Piece(layout, Whole(layout, files), i);
      Remember(i, Sha256(out[..n]));
    }

    /** The cached hash of chunk i, which is read if it is not known yet. */
    method HashOf(i: nat, buf: array<byte>) returns (h: Digest, out: array<byte>)
      requires Valid() && i < layout.Chunks()
      requires buf !in files && (buf as object) != hashes && (buf as object) != have
      modifies this`known, hashes, have, buf
      ensures Valid() && Chunks() == old(Chunks()) && (out == buf || fresh(out))
      ensures Cache() == Learn(old(Cache()), i, Chunks()[i]) && i in Cache() && h == Cache()[i]
    {
      hide Whole;
      out := buf;
      if !have[i] {
        var ok, n;
        ok, out, n := ReadChunk(i, buf);
      }
      h := hashes[i];
    }

    /** Hashes: the cached hashes of a range, reading the chunks it does not know yet. */
    method Hashes(first: int, count: int) returns (ok: bool, hs: seq<byte>)
      requires Valid()
      modifies this`known, hashes, have
      ensures Valid() && Chunks() == old(Chunks())
      ensures ok == (first >= 0 && count >= 0 && first + count <= layout.Chunks())
      ensures !ok ==> Cache() == old(Cache())
      ensures ok ==> Cache() == LearnRange(old(Cache()), Chunks(), first, count) &&
                     (forall i: nat :: first <= i < first + count ==> i in Cache()) &&
                     hs == Flatten(CachedRange(Cache(), first, count))
    {
      hide CachedRange;
      hide Learn;
      hide Lists;
      hide Whole;
      hide Cache;
      hide LearnRange;
      hide Cut;
      hide Count;
      hide Opened;
      if first < 0 || count < 0 || first + count > layout.Chunks() {
        return false, [];
      }
      ok, hs := true, [];
      var buf := new byte[0];
      ghost var cache, bytes, ds := Cache(), Chunks(), [];
      ListsNone(cache, first);
      for i := first to first + count
        invariant Valid() && Chunks() == bytes && fresh(buf)
        invariant (buf as object) != hashes && (buf as object) != have && buf !in files
        invariant LearnRange(Cache(), bytes, i, first + count - i) == LearnRange(cache, bytes, first, count)
        invariant hs == Flatten(ds) && Lists(Cache(), first, ds) && |ds| == i - first
      {
        ghost var before := Cache();
        LearnStep(before, bytes, i, first + count - i);
        var h;
        h, buf := HashOf(i, buf);
        ListsMore(before, bytes[i], first, ds, h);
        FlattenAppend(ds, h);
        hs, ds := hs + h, ds + [h];
      }
      LearnNothing(Cache(), bytes, first + count);
      ListsRange(Cache(), first, count, ds);
    }

    /** AllKnown: by the counter. */
    method AllKnown() returns (all: bool)
      requires Valid()
      ensures all == Hosts.AllKnown(Cache(), layout.Chunks())
    {
      CountFull(have[..]);
      all := known == have.Length;
    }

    /** Root over the whole hash array: the root of the cache once all is known,
        before that the root with zeros for what is not. */
    method Root() returns (r: Digest)
      requires Valid()
      ensures r == Sha256(Flatten(KnownOrZero(Cache(), layout.Chunks())))
      ensures Hosts.AllKnown(Cache(), layout.Chunks()) ==> r == RootOf(Cache(), layout.Chunks())
    {
      r := Sha256(Flatten(hashes[..]));
      assert hashes[..] == KnownOrZero(Cache(), layout.Chunks());
      if Hosts.AllKnown(Cache(), layout.Chunks()) {
        AllKnownListed(Cache(), layout.Chunks());
      }
    }
  }

  /** A hash not computed yet. */
  function Unset(): Digest {
    seq(32, _ => 0)
  }

  function KnownOrZero(cache: map<nat, Digest>, n: nat): (ds: seq<Digest>)
    ensures |ds| == n && forall i: nat :: i < n ==> ds[i] == if i in cache then cache[i] else Unset()
  {
    seq(n, i requires 0 <= i < n => if i in cache then cache[i] else Unset())
  }

  lemma AllKnownListed(cache: map<nat, Digest>, n: nat)
    requires Hosts.AllKnown(cache, n)
    ensures KnownOrZero(cache, n) == CachedRange(cache, 0, n)
  {
    var ds := CachedRange(cache, 0, n);
    forall k: nat | k < n ensures KnownOrZero(cache, n)[k] == ds[k] {
      assert ds[k] == cache[0 + k];
    }
  }

  lemma LearnNothing(cache: map<nat, Digest>, bytes: seq<seq<byte>>, i: nat)
    requires i <= |bytes|
    ensures LearnRange(cache, bytes, i, 0) == cache
  {
  }

  lemma LearnStep(cache: map<nat, Digest>, bytes: seq<seq<byte>>, i: nat, count: nat)
    requires 0 < count && i + count <= |bytes|
    ensures LearnRange(cache, bytes, i, count) == LearnRange(Learn(cache, i, bytes[i]), bytes, i + 1, count - 1)
  {
  }

  /** ds are the cached hashes from chunk first on. */
  ghost predicate Lists(cache: map<nat, Digest>, first: nat, ds: seq<Digest>) {
    forall i: nat :: first <= i < first + |ds| ==> i in cache && cache[i] == ds[i - first]
  }

  lemma ListsNone(cache: map<nat, Digest>, first: nat)
    ensures Lists(cache, first, [])
  {
  }

  lemma ListsMore(cache: map<nat, Digest>, d: seq<byte>, first: nat, ds: seq<Digest>, h: Digest)
    requires Lists(cache, first, ds)
    requires var later := Learn(cache, first + |ds|, d); first + |ds| in later && later[first + |ds|] == h
    ensures Lists(Learn(cache, first + |ds|, d), first, ds + [h])
  {
    var later := Learn(cache, first + |ds|, d);
    forall i: nat | first <= i < first + |ds + [h]| ensures i in later && later[i] == (ds + [h])[i - first] {
      if i < first + |ds| {
        assert i in cache;
      }
    }
  }

  lemma ListsRange(cache: map<nat, Digest>, first: nat, count: nat, ds: seq<Digest>)
    requires Lists(cache, first, ds) && |ds| == count
    ensures (forall i: nat :: first <= i < first + count ==> i in cache) && ds == CachedRange(cache, first, count)
  {
    var r := CachedRange(cache, first, count);
    forall k: nat | k < count ensures r[k] == ds[k] {
      assert first + k in cache;
    }
  }

  lemma NoneHeld(held: seq<bool>)
    requires forall i :: 0 <= i < |held| ==> !held[i]
    ensures Count(held) == 0
  {
    var zero := (i: nat) => 0;
    TotalSame(|held|, HeldAt(held), zero);
    TotalConst(|held|, zero, 0);
  }
}
