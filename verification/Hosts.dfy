/** The host's side of one session as functions: its write-once hash cache, the
    answers serve gives to each request, and when it sends DONE. */
module Hosts {
  import opened Bytes
  import opened Wire
  import opened Layouts

  /** cache maps a chunk to the hash of its bytes when it was first read. out
      holds the frames written to the connection that the peer has not taken;
      completed counts the downloads recorded. */
  datatype Host = Host(
    layout: Layout,
    cache: map<nat, Digest>,
    lastRequested: bool,
    doneSent: bool,
    completed: nat,
    closed: bool,
    out: seq<Frame>)

  /** ReadChunk's effect on the cache: the hash is recorded the first time only. */
  function Learn(cache: map<nat, Digest>, i: nat, d: seq<byte>): map<nat, Digest> {
    if i in cache then cache else cache[i := Sha256(d)]
  }

  /** Chunks first .. first + count - 1 read in turn. */
  function LearnRange(cache: map<nat, Digest>, bytes: seq<seq<byte>>, first: nat, count: nat): map<nat, Digest>
    requires first + count <= |bytes|
    decreases count
  {
    if count == 0 then cache
    else LearnRange(Learn(cache, first, bytes[first]), bytes, first + 1, count - 1)
  }

  /** The cached hashes of a range, end to end. */
  function CachedRange(cache: map<nat, Digest>, first: nat, count: nat): (r: seq<Digest>)
    requires forall i: nat :: first <= i < first + count ==> i in cache
    ensures |r| == count && forall k: nat :: k < count ==> r[k] == cache[first + k]
  {
    seq(count, k requires 0 <= k < count => cache[first + k])
  }

  ghost predicate AllKnown(cache: map<nat, Digest>, n: nat) {
    forall i: nat :: i < n ==> i in cache
  }

  /** The hash over all chunk hashes. */
  function RootOf(cache: map<nat, Digest>, n: nat): Digest
    requires AllKnown(cache, n)
  {
    Sha256(Flatten(CachedRange(cache, 0, n)))
  }

  /** The DATA frames for a range of chunks, each split to the connection's limit. */
  function DataFrames(bytes: seq<seq<byte>>, first: nat, count: nat, limit: nat): seq<Frame>
    requires first + count <= |bytes| && limit > DATA_HEADER
    decreases count
  {
    if count == 0 then []
    else Split(Data(U32(first), 0, bytes[first]), limit) + DataFrames(bytes, first + 1, count - 1, limit)
  }

  /** Number of turns of the loop over a REQ: its bound is computed in 32 bits. */
  function Turns(first: uint32, count: uint32): nat {
    var end := U32(first + count);
    if first < end then end - first else 0
  }

  lemma TurnsInRange(first: uint32, count: uint32)
    ensures first + Turns(first, count) <= first + count
    ensures first + count < MAX32 ==> Turns(first, count) == count
  {
  }

  function Refuse(h: Host, code: byte): Host {
    h.(closed := true, out := h.out + [Error(code, [])])
  }

  /** A REQ answered while the source's chunks read as bytes. */
  function OnReq(h: Host, first: uint32, count: uint32, bytes: seq<seq<byte>>, limit: nat): Host
    requires limit > DATA_HEADER
  {
    if first + count > |bytes| then Refuse(h, ERR_PROTOCOL)
    else
      TurnsInRange(first, count);
      var turns := Turns(first, count);
      h.(cache := LearnRange(h.cache, bytes, first, turns),
         out := h.out + DataFrames(bytes, first, turns, limit),
         lastRequested := h.lastRequested || (count > 0 && U32(first + count) == |bytes|))
  }

  /** A HASH-REQ answered from the cache, reading what it does not know yet. */
  function OnHashReq(h: Host, first: uint32, count: uint32, bytes: seq<seq<byte>>): Host {
    if first + count > |bytes| then Refuse(h, ERR_PROTOCOL)
    else
      LearnRangeKnows(h.cache, bytes, first, count);
      var cache := LearnRange(h.cache, bytes, first, count);
      h.(cache := cache, out := h.out + [Hash(first, count, Flatten(CachedRange(cache, first, count)))])
  }

  /** DONE is sent once, when the last chunk has been asked for and every hash is known. */
  ghost function MaybeDone(h: Host, n: nat): Host {
    if !h.closed && !h.doneSent && (h.lastRequested || n == 0) && AllKnown(h.cache, n) then
      h.(doneSent := true, completed := h.completed + 1, out := h.out + [Done(RootOf(h.cache, n))])
    else h
  }

  function Answer(h: Host, f: Frame, bytes: seq<seq<byte>>, limit: nat): Host
    requires limit > DATA_HEADER
  {
    match f
    case Req(first, count) => OnReq(h, first, count, bytes, limit)
    case HashReq(first, count) => OnHashReq(h, first, count, bytes)
    case _ => h
  }

  /** One turn of serve's loop. */
  ghost function Serve(h: Host, f: Frame, bytes: seq<seq<byte>>, limit: nat): Host
    requires limit > DATA_HEADER
  {
    MaybeDone(Answer(h, f, bytes, limit), |bytes|)
  }

  // ----- the cache is write-once

  /** Reading a range adds its chunks, records what it reads only for new ones,
      and never changes an entry that was there. */
  lemma {:induction false} LearnRangeKnows(cache: map<nat, Digest>, bytes: seq<seq<byte>>, first: nat, count: nat)
    requires first + count <= |bytes|
    ensures var c := LearnRange(cache, bytes, first, count);
            (forall i: nat :: i in c <==> i in cache || first <= i < first + count) &&
            (forall i: nat :: i in cache ==> c[i] == cache[i]) &&
            (forall i: nat :: i !in cache && first <= i < first + count ==> c[i] == Sha256(bytes[i]))
    decreases count
  {
    if count > 0 {
      LearnRangeKnows(Learn(cache, first, bytes[first]), bytes, first + 1, count - 1);
    }
  }

  /** Whatever the peer sends: cached hashes stay, DONE is never sent twice, a
      completion is recorded exactly when DONE is sent, and DONE carries the
      root over hashes that are all known. */
  lemma ServeDone(h: Host, f: Frame, bytes: seq<seq<byte>>, limit: nat)
    requires limit > DATA_HEADER
    ensures var t := Serve(h, f, bytes, limit);
            (forall i: nat :: i in h.cache ==> i in t.cache && t.cache[i] == h.cache[i]) &&
            (h.doneSent ==> t.doneSent && t.completed == h.completed) &&
            (t.completed == h.completed + (if t.doneSent && !h.doneSent then 1 else 0)) &&
            (t.doneSent && !h.doneSent ==>
               AllKnown(t.cache, |bytes|) && (t.lastRequested || |bytes| == 0) &&
               t.out == Answer(h, f, bytes, limit).out + [Done(RootOf(t.cache, |bytes|))])
  {
    match f {
      case Req(first, count) =>
        if first + count <= |bytes| {
          TurnsInRange(first, count);
          LearnRangeKnows(h.cache, bytes, first, Turns(first, count));
        }
      case HashReq(first, count) =>
        if first + count <= |bytes| {
          LearnRangeKnows(h.cache, bytes, first, count);
        }
      case _ =>
    }
  }
}
