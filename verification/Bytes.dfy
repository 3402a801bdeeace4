/** Bytes, fixed-width integers, digests and the two-valued results used
    throughout the model. */
module Bytes {

  newtype byte = b: int | 0 <= b < 256

  const MAX32: int := 0x1_0000_0000

  type uint32 = x: int | 0 <= x < MAX32

  /** Conversion of an integer to 32 bits: high bits are dropped. */
  function U32(x: int): uint32 {
    x % MAX32
  }

  type Digest = d: seq<byte> | |d| == 32 witness seq(32, _ => 0)

  /** The hash is left uninterpreted: nothing is known of it but the length of its output. */
  const Sha256: seq<byte> -> Digest

  datatype Option<+T> = None | Some(value: T)

  datatype Result<+T, +E> = Ok(value: T) | Err(error: E)

  /** Two given byte strings witness a hash collision. */
  ghost predicate Collides(a: seq<byte>, b: seq<byte>) {
    a != b && Sha256(a) == Sha256(b)
  }

  function Min(a: int, b: int): int {
    if a <= b then a else b
  }

  lemma SliceOfSlice<T>(s: seq<T>, lo: nat, hi: nat, a: nat, b: nat)
    requires a <= b <= hi - lo && hi <= |s|
    ensures s[lo..hi][a..b] == s[lo + a..lo + b]
  {
    var x, y := s[lo..hi][a..b], s[lo + a..lo + b];
    assert forall k :: 0 <= k < b - a ==> x[k] == s[lo + a + k] == y[k];
  }

  lemma ExtendSlice<T>(s: seq<T>, a: nat, b: nat)
    requires a <= b <= |s|
    ensures s[..a] + s[a..b] == s[..b]
  {
  }

  // ----- little-endian integers

  function PutU16(x: nat): (b: seq<byte>)
    ensures |b| == 2
  {
    [(x % 256) as byte, (x / 256 % 256) as byte]
  }

  function GetU16(b: seq<byte>): nat
    requires |b| == 2
  {
    b[0] as nat + 256 * b[1] as nat
  }

  function PutU32(x: uint32): (b: seq<byte>)
    ensures |b| == 4
  {
    [(x % 256) as byte, (x / 256 % 256) as byte, (x / 65536 % 256) as byte, (x / 16777216 % 256) as byte]
  }

  function GetU32(b: seq<byte>): uint32
    requires |b| == 4
  {
    b[0] as int + 256 * b[1] as int + 65536 * b[2] as int + 16777216 * b[3] as int
  }

  lemma U32RoundTrip(x: uint32)
    ensures GetU32(PutU32(x)) == x
  {
    var q1, q2, q3 := x / 256, x / 65536, x / 16777216;
    assert x == 256 * q1 + x % 256;
    assert q2 == q1 / 256 && q3 == q2 / 256;
  }

  lemma U32Unique(b: seq<byte>)
    requires |b| == 4
    ensures PutU32(GetU32(b)) == b
  {
    var x := GetU32(b);
    assert x / 256 == b[1] as int + 256 * b[2] as int + 65536 * b[3] as int;
    assert x / 65536 == b[2] as int + 256 * b[3] as int;
    assert x / 16777216 == b[3] as int;
  }

  lemma U16RoundTrip(x: nat)
    requires x < 65536
    ensures GetU16(PutU16(x)) == x
  {
  }

  lemma U16Unique(b: seq<byte>)
    requires |b| == 2
    ensures GetU16(b) < 65536 && PutU16(GetU16(b)) == b
  {
  }

  // ----- digests laid end to end

  /** The digests written one after another, 32 bytes each. */
  function Flatten(ds: seq<Digest>): (r: seq<byte>)
    ensures |r| == 32 * |ds|
  {
    if ds == [] then [] else ds[0] + Flatten(ds[1..])
  }

  /** The digest at position k of a flat array. */
  function DigestAt(hs: seq<byte>, k: nat): Digest
    requires 32 * k + 32 <= |hs|
  {
    hs[32 * k..32 * k + 32]
  }

  lemma {:induction false} FlattenAt(ds: seq<Digest>, k: nat)
    requires k < |ds|
    ensures DigestAt(Flatten(ds), k) == ds[k]
  {
    var r := Flatten(ds);
    if k == 0 {
      assert r[0..32] == ds[0];
    } else {
      FlattenAt(ds[1..], k - 1);
      assert r[32..] == Flatten(ds[1..]);
      assert r[32 * k..32 * k + 32] == r[32..][32 * (k - 1)..32 * (k - 1) + 32];
    }
  }

  lemma FlattenInjective(a: seq<Digest>, b: seq<Digest>)
    requires |a| == |b| && Flatten(a) == Flatten(b)
    ensures a == b
  {
    forall k | 0 <= k < |a| ensures a[k] == b[k] {
      FlattenAt(a, k);
      FlattenAt(b, k);
    }
  }

  /** A flat array of 32 * n bytes is the flattening of the digests cut from it. */
  lemma {:induction false} FlattenCut(hs: seq<byte>, ds: seq<Digest>)
    requires |hs| == 32 * |ds|
    requires forall k :: 0 <= k < |ds| ==> DigestAt(hs, k) == ds[k]
    ensures Flatten(ds) == hs
  {
    if ds != [] {
      forall k | 0 <= k < |ds[1..]| ensures DigestAt(hs[32..], k) == ds[1..][k] {
        assert DigestAt(hs, k + 1) == ds[k + 1];
        assert hs[32..][32 * k..32 * k + 32] == hs[32 * (k + 1)..32 * (k + 1) + 32];
      }
      FlattenCut(hs[32..], ds[1..]);
      assert DigestAt(hs, 0) == ds[0];
      assert hs == hs[0..32] + hs[32..];
    }
  }

  lemma {:induction false} FlattenAppend(a: seq<Digest>, d: Digest)
    ensures Flatten(a + [d]) == Flatten(a) + d
  {
    if a == [] {
      assert [d][1..] == [];
      assert a + [d] == [d];
    } else {
      FlattenAppend(a[1..], d);
      assert (a + [d])[1..] == a[1..] + [d];
    }
  }
}
