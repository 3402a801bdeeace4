/** The host's serve loop as it runs over one connection. */
module HostSessions {
  import opened Bytes
  import opened Sums
  import opened Wire
  import opened WireIO
  import opened Store
  import opened Layouts
  import opened Sinks
  import opened Hosts
  import opened Network
  import opened SourceFiles

  /** serve over the frames fs: one turn each, until an error closes the session.
      The source reads as views[k] while fs[k] is answered. */
  ghost function ServeAll(h: Host, fs: seq<Frame>, views: seq<seq<seq<byte>>>, limit: nat): Host
    requires limit > DATA_HEADER && |views| == |fs|
    decreases |fs|
  {
    if fs == [] || h.closed then h else ServeAll(Serve(h, fs[0], views[0], limit), fs[1..], views[1..], limit)
  }

  /** A source that stays as it is. */
  function Unchanging(bytes: seq<seq<byte>>, n: nat): (r: seq<seq<seq<byte>>>)
    ensures |r| == n && forall k :: 0 <= k < n ==> r[k] == bytes
  {
    seq(n, _ => bytes)
  }

  lemma {:induction false} SplitDone(f: Frame, per: nat, off: nat)
    requires f.Data? && per > 0
    ensures Sum(Pieces(f.index, f.offset, f.payload, off, per), DoneWeight()) == 0
    decreases |f.payload| - off
  {
    if off < |f.payload| {
      SplitDone(f, per, off + per);
      var ps := Pieces(f.index, f.offset, f.payload, off, per);
      assert ps[1..] == Pieces(f.index, f.offset, f.payload, off + per, per);
    }
  }

  lemma ChunkDone(f: Frame, limit: nat)
    requires f.Data? && limit > DATA_HEADER
    ensures Sum(Split(f, limit), DoneWeight()) == 0
  {
    if |f.payload| + DATA_HEADER > limit {
      SplitDone(f, limit - DATA_HEADER, 0);
    } else {
      assert [f][1..] == [];
    }
  }

  lemma {:induction false} DataFramesDone(bytes: seq<seq<byte>>, first: nat, count: nat, limit: nat)
    requires first + count <= |bytes| && limit > DATA_HEADER
    ensures Sum(DataFrames(bytes, first, count, limit), DoneWeight()) == 0
    decreases count
  {
    hide Split;
    if count > 0 {
      var f := Data(U32(first), 0, bytes[first]);
      ChunkDone(f, limit);
      SumConcat(Split(f, limit), DataFrames(bytes, first + 1, count - 1, limit), DoneWeight());
      DataFramesDone(bytes, first + 1, count - 1, limit);
    }
  }

  /** One turn of serve writes DONE exactly when it starts to count as sent. */
  lemma ServeDoneFrames(h: Host, f: Frame, bytes: seq<seq<byte>>, limit: nat)
    requires limit > DATA_HEADER
    ensures var t := Serve(h, f, bytes, limit);
            Sum(t.out, DoneWeight()) == Sum(h.out, DoneWeight()) + (if t.doneSent && !h.doneSent then 1 else 0) &&
            (h.doneSent ==> t.doneSent)
  {
    var a := Answer(h, f, bytes, limit);
    match f {
      case Req(first, count) =>
        if first + count <= |bytes| {
          TurnsInRange(first, count);
          DataFramesDone(bytes, first, Turns(first, count), limit);
          SumConcat(h.out, DataFrames(bytes, first, Turns(first, count), limit), DoneWeight());
        } else {
          SumAppend(h.out, Error(ERR_PROTOCOL, []), DoneWeight());
        }
      case HashReq(first, count) =>
        if first + count <= |bytes| {
          SumAppend(h.out, a.out[|h.out|], DoneWeight());
        } else {
          SumAppend(h.out, Error(ERR_PROTOCOL, []), DoneWeight());
        }
      case _ =>
    }
    if MaybeDone(a, |bytes|) != a {
      SumAppend(a.out, Done(RootOf(a.cache, |bytes|)), DoneWeight());
    }
  }

  /** Whatever frames a peer sends and whatever the source reads as each time, a
      session writes DONE at most once, and counts one completion exactly when it does. */
  lemma {:induction false} DoneAtMostOnce(h: Host, fs: seq<Frame>, views: seq<seq<seq<byte>>>, limit: nat)
    requires limit > DATA_HEADER && |views| == |fs|
    ensures var t := ServeAll(h, fs, views, limit);
            Sum(t.out, DoneWeight()) == Sum(h.out, DoneWeight()) + (if t.doneSent && !h.doneSent then 1 else 0) &&
            t.completed == h.completed + (if t.doneSent && !h.doneSent then 1 else 0) && (h.doneSent ==> t.doneSent)
    decreases |fs|
  {
    if fs != [] && !h.closed {
      ServeDoneFrames(h, fs[0], views[0], limit);
      ServeDone(h, fs[0], views[0], limit);
      DoneAtMostOnce(Serve(h, fs[0], views[0], limit), fs[1..], views[1..], limit);
    }
  }

  /** Whoever the peer is: after a turn that leaves the session open, with every
      hash known and the last chunk asked for (or no chunks at all), DONE has been
      written, in this turn if not before. */
  lemma DoneWhenDue(h: Host, f: Frame, bytes: seq<seq<byte>>, limit: nat)
    requires limit > DATA_HEADER && !h.closed
    ensures var t := Serve(h, f, bytes, limit);
            !t.closed && (forall i: nat :: i < |bytes| ==> i in t.cache) && (t.lastRequested || |bytes| == 0) ==>
              t.doneSent && Sum(t.out, DoneWeight()) == Sum(h.out, DoneWeight()) + if h.doneSent then 0 else 1
  {
    ServeDoneFrames(h, f, bytes, limit);
  }

  /** A session as it stands between turns: DONE was written only when due, once,
      with the root over the cache. */
  ghost predicate DoneJustified(h: Host, n: nat) {
    Sum(h.out, DoneWeight()) == h.completed == (if h.doneSent then 1 else 0) &&
    (h.doneSent ==> AllKnown(h.cache, n) && (h.lastRequested || n == 0) &&
                    forall f :: f in h.out && f.Done? ==> f.payload == RootOf(h.cache, n))
  }

  /** ... and, if it is open, it was written as soon as it was due. */
  ghost predicate DonePrompt(h: Host, n: nat) {
    !h.closed && AllKnown(h.cache, n) && (h.lastRequested || n == 0) ==> h.doneSent
  }

  lemma {:induction false} DataFramesOnly(bytes: seq<seq<byte>>, first: nat, count: nat, limit: nat)
    requires first + count <= |bytes| && limit > DATA_HEADER
    ensures forall f :: f in DataFrames(bytes, first, count, limit) ==> f.Data?
    decreases count
  {
    hide Split;
    if count > 0 {
      SplitOnly(Data(U32(first), 0, bytes[first]), limit);
      DataFramesOnly(bytes, first + 1, count - 1, limit);
    }
  }

  lemma SplitOnly(f: Frame, limit: nat)
    requires f.Data? && limit > DATA_HEADER
    ensures forall g :: g in Split(f, limit) ==> g.Data?
  {
    if |f.payload| + DATA_HEADER > limit {
      PiecesOnly(f, 0, limit - DATA_HEADER);
    }
  }

  lemma {:induction false} PiecesOnly(f: Frame, off: nat, per: nat)
    requires f.Data? && per > 0
    ensures forall g :: g in Pieces(f.index, f.offset, f.payload, off, per) ==> g.Data?
    decreases |f.payload| - off
  {
    if off < |f.payload| {
      PiecesOnly(f, off + per, per);
    }
  }

  /** What a turn writes besides DONE is not DONE, and it never forgets. */
  lemma AnswerWrites(h: Host, f: Frame, bytes: seq<seq<byte>>, limit: nat)
    requires limit > DATA_HEADER
    ensures var a := Answer(h, f, bytes, limit);
            (forall g :: g in a.out ==> g in h.out || !g.Done?) && (h.lastRequested ==> a.lastRequested) &&
            a.doneSent == h.doneSent && a.completed == h.completed &&
            forall i: nat :: i in h.cache ==> i in a.cache && a.cache[i] == h.cache[i]
  {
    hide DataFrames;
    match f {
      case Req(first, count) =>
        if first + count <= |bytes| {
          TurnsInRange(first, count);
          DataFramesOnly(bytes, first, Turns(first, count), limit);
          LearnRangeKnows(h.cache, bytes, first, Turns(first, count));
        }
      case HashReq(first, count) =>
        if first + count <= |bytes| {
          LearnRangeKnows(h.cache, bytes, first, count);
        }
      case _ =>
    }
  }

  lemma SameRoot(cache: map<nat, Digest>, later: map<nat, Digest>, n: nat)
    requires AllKnown(cache, n) && forall i: nat :: i in cache ==> i in later && later[i] == cache[i]
    ensures AllKnown(later, n) && RootOf(later, n) == RootOf(cache, n)
  {
    var a, b := CachedRange(cache, 0, n), CachedRange(later, 0, n);
    forall k: nat | k < n ensures a[k] == b[k] {
      assert a[k] == cache[0 + k] && b[k] == later[0 + k];
    }
    assert a == b;
  }

  lemma TurnJustifies(h: Host, f: Frame, bytes: seq<seq<byte>>, limit: nat)
    requires limit > DATA_HEADER && !h.closed && DoneJustified(h, |bytes|)
    ensures var t := Serve(h, f, bytes, limit); DoneJustified(t, |bytes|) && DonePrompt(t, |bytes|)
  {
    hide Answer;
    hide RootOf;
    hide Sum;
    AnswerWrites(h, f, bytes, limit);
    ServeDone(h, f, bytes, limit);
    ServeDoneFrames(h, f, bytes, limit);
    if h.doneSent {
      SameRoot(h.cache, Answer(h, f, bytes, limit).cache, |bytes|);
    } else {
      NoDone(h.out);
    }
  }

  lemma NoDone(out: seq<Frame>)
    requires Sum(out, DoneWeight()) == 0
    ensures forall g :: g in out ==> !g.Done?
  {
    forall g | g in out ensures !g.Done? {
      SumMember(out, DoneWeight(), g);
    }
  }

  lemma {:induction false} TurnsJustify(h: Host, fs: seq<Frame>, views: seq<seq<seq<byte>>>, n: nat, limit: nat)
    requires limit > DATA_HEADER && |views| == |fs| && forall k :: 0 <= k < |fs| ==> |views[k]| == n
    requires DoneJustified(h, n) && (fs == [] ==> DonePrompt(h, n))
    ensures var t := ServeAll(h, fs, views, limit); DoneJustified(t, n) && DonePrompt(t, n)
    decreases |fs|
  {
    hide Serve;
    hide DoneJustified;
    if fs != [] && !h.closed {
      TurnJustifies(h, fs[0], views[0], limit);
      TurnsJustify(Serve(h, fs[0], views[0], limit), fs[1..], views[1..], n, limit);
    }
  }

  /** DONE, exactly. Whatever frames a peer sends, and whatever the source reads as
      each time, an open session of at least one turn has written DONE if and only
      if every hash is known and the last chunk was asked for (or there are no
      chunks); a session ended by an error may only lack it. It is one frame, with
      the root over the hashes, and it counts one download. */
  lemma DoneExactly(l: Layout, cache: map<nat, Digest>, fs: seq<Frame>, views: seq<seq<seq<byte>>>, n: nat, limit: nat)
    requires limit > DATA_HEADER && 0 < |fs| == |views| && forall k :: 0 <= k < |fs| ==> |views[k]| == n
    ensures var t := ServeAll(Host(l, cache, false, false, 0, false, []), fs, views, limit);
            var due := AllKnown(t.cache, n) && (t.lastRequested || n == 0);
            (t.doneSent ==> due) && (!t.closed ==> (due ==> t.doneSent)) &&
            Sum(t.out, DoneWeight()) == t.completed == (if t.doneSent then 1 else 0) &&
            (t.doneSent ==> forall f :: f in t.out && f.Done? ==> f.payload == RootOf(t.cache, n))
  {
    TurnsJustify(Host(l, cache, false, false, 0, false, []), fs, views, n, limit);
  }

  /** Some frame asks for a range that ends with the last of n chunks. */
  ghost predicate AsksForLast(fs: seq<Frame>, n: nat) {
    exists k :: 0 <= k < |fs| && fs[k].Req? && fs[k].count > 0 && fs[k].first + fs[k].count == n
  }

  lemma AsksNext(fs: seq<Frame>, n: nat)
    requires fs != []
    ensures AsksForLast(fs, n) <==>
            (fs[0].Req? && fs[0].count > 0 && fs[0].first + fs[0].count == n) || AsksForLast(fs[1..], n)
  {
    if AsksForLast(fs[1..], n) {
      var k :| 0 <= k < |fs[1..]| && fs[1..][k].Req? && fs[1..][k].count > 0 &&
               fs[1..][k].first + fs[1..][k].count == n;
      assert fs[k + 1] == fs[1..][k];
    }
    if AsksForLast(fs, n) {
      var k :| 0 <= k < |fs| && fs[k].Req? && fs[k].count > 0 && fs[k].first + fs[k].count == n;
      assert k > 0 ==> fs[1..][k - 1] == fs[k];
    }
  }

  lemma LastNotedOnce(h: Host, f: Frame, bytes: seq<seq<byte>>, limit: nat)
    requires limit > DATA_HEADER && |bytes| < MAX32
    ensures var t := Serve(h, f, bytes, limit);
            !t.closed ==>
              (t.lastRequested <==> h.lastRequested || (f.Req? && f.count > 0 && f.first + f.count == |bytes|))
  {
    hide DataFrames;
    hide LearnRange;
  }

  /** While a session is open, the host has noted the last chunk exactly when a
      frame it took asked for it; below 2^32 chunks no sum of 32-bit numbers hides it. */
  lemma {:induction false} LastNoted(h: Host, fs: seq<Frame>, views: seq<seq<seq<byte>>>, n: nat, limit: nat)
    requires limit > DATA_HEADER && |fs| == |views| && n < MAX32 && forall k :: 0 <= k < |fs| ==> |views[k]| == n
    ensures var t := ServeAll(h, fs, views, limit);
            !t.closed ==> (t.lastRequested <==> h.lastRequested || AsksForLast(fs, n))
    decreases |fs|
  {
    hide Serve;
    if fs != [] && !h.closed {
      var t := Serve(h, fs[0], views[0], limit);
      LastNotedOnce(h, fs[0], views[0], limit);
      LastNoted(t, fs[1..], views[1..], n, limit);
      AsksNext(fs, n);
      hide AsksForLast;
      if t.closed {
        assert ServeAll(t, fs[1..], views[1..], limit) == t;
      }
    }
  }

  /** A request out of range ends the session: an ERROR frame, nothing learned, no
      DONE, and whatever follows is not even looked at. */
  lemma RefusalEnds(h: Host, f: Frame, bytes: seq<seq<byte>>, fs: seq<Frame>, views: seq<seq<seq<byte>>>, limit: nat)
    requires limit > DATA_HEADER && |views| == |fs| && !h.closed
    requires (f.Req? || f.HashReq?) && f.first + f.count > |bytes|
    ensures ServeAll(h, [f] + fs, [bytes] + views, limit) == h.(closed := true, out := h.out + [Error(4, [])])
  {
    assert ([f] + fs)[1..] == fs && ([bytes] + views)[1..] == views;
  }

  /** Frames that ask for nothing change nothing; at most DONE, which was due, follows. */
  lemma OthersIgnored(h: Host, f: Frame, bytes: seq<seq<byte>>, limit: nat)
    requires limit > DATA_HEADER && !f.Req? && !f.HashReq?
    ensures var t := Serve(h, f, bytes, limit);
            t == h || (!h.closed && !h.doneSent && AllKnown(h.cache, |bytes|) && (h.lastRequested || |bytes| == 0) &&
                       t == h.(doneSent := true, completed := h.completed + 1,
                               out := h.out + [Done(RootOf(h.cache, |bytes|))]))
  {
  }

  class HostSession {
    const src: SourceFile
    const limit: nat
    const buf: array<byte>
    var lastRequested: bool
    var doneSent: bool
    var closed: bool
    var completed: nat
    var out: seq<Frame>

    ghost predicate Valid()
      reads this, src, src.have, src.hashes
    {
      src.Valid() && limit > DATA_HEADER && buf !in src.files &&
      (buf as object) != src.hashes && (buf as object) != src.have
    }

    /** The session as a value. */
    ghost function State(): Host
      requires Valid()
      reads this, src, src.have, src.hashes
    {
      Host(src.layout, src.Cache(), lastRequested, doneSent, completed, closed, out)
    }

    constructor (s: SourceFile, max: nat)
      requires s.Valid() && max > DATA_HEADER
      ensures Valid() && src == s && limit == max && fresh(buf)
      ensures State() == Host(s.layout, s.Cache(), false, false, 0, false, [])
    {
      src, limit := s, max;
      lastRequested, doneSent, closed, completed, out := false, false, false, 0, [];
      buf := new byte[CHUNK_SIZE];
    }

    /** WriteFrame on the connection: DATA split to its limit. */
    method WriteFrame(f: Frame)
      requires Valid()
      modifies this`out
      ensures out == old(out) + Split(f, limit)
    {
      var parts := SplitData(f, limit);
      out := out + parts;
    }

    /** One chunk read and sent. */
    method SendChunk(i: nat)
      requires Valid() && i < src.layout.Chunks()
      modifies this`out, src`known, src.hashes, src.have, buf
      ensures Valid() && src.Chunks() == old(src.Chunks())
      ensures src.Cache() == Learn(old(src.Cache()), i, src.Chunks()[i])
      ensures out == old(out) + Split(Data(U32(i), 0, src.Chunks()[i]), limit)
    {
      hide Whole;
      hide Split;
      var ok, data, m := src.ReadChunk(i, buf);
      WriteFrame(Data(U32(i), 0, data[..m]));
    }

    /** The loop over the chunks of a REQ. */
    method SendChunks(first: uint32, end: uint32, ghost turns: nat)
      requires Valid() && first + turns <= src.layout.Chunks() && turns == if first < end then end - first else 0
      modifies this`out, src`known, src.hashes, src.have, buf
      ensures Valid() && src.Chunks() == old(src.Chunks())
      ensures src.Cache() == LearnRange(old(src.Cache()), src.Chunks(), first, turns)
      ensures out == old(out) + DataFrames(src.Chunks(), first, turns, limit)
    {
      hide Whole;
      hide Split;
      hide DataFrames;
      hide LearnRange;
      hide Learn;
      ghost var bytes, cache, sent, left := src.Chunks(), src.Cache(), out, turns;
      var i: nat := first;
      while i < end
        invariant Valid() && src.Chunks() == bytes && i + left == first + turns
        invariant left == if i < end then end - i else 0
        invariant LearnRange(src.Cache(), bytes, i, left) == LearnRange(cache, bytes, first, turns)
        invariant out + DataFrames(bytes, i, left, limit) == sent + DataFrames(bytes, first, turns, limit)
      {
        Served(src.Cache(), bytes, out, i, left, limit);
        SendChunk(i);
        i, left := i + 1, left - 1;
      }
      ServedAll(src.Cache(), bytes, out, i, limit);
    }

    /** REQ: the range check, then one DATA a chunk, in the order of the range. */
    method Request(first: uint32, count: uint32)
      requires Valid() && !closed
      modifies this`out, this`closed, this`lastRequested, src`known, src.hashes, src.have, buf
      ensures Valid() && src.Chunks() == old(src.Chunks())
      ensures State() == OnReq(old(State()), first, count, src.Chunks(), limit)
    {
      hide Whole;
      hide DataFrames;
      hide LearnRange;
      var n := src.layout.Chunks();
      if first + count > n {
        WriteFrame(Error(ERR_PROTOCOL, []));
        closed := true;
        return;
      }
      TurnsInRange(first, count);
      SendChunks(first, U32(first + count), Turns(first, count));
      if count > 0 && U32(first + count) == n {
        lastRequested := true;
      }
    }

    /** HASH-REQ: the cached hashes of the range, or an error. */
    method HashRequest(first: uint32, count: uint32)
      requires Valid() && !closed
      modifies this`out, this`closed, src`known, src.hashes, src.have
      ensures Valid() && src.Chunks() == old(src.Chunks())
      ensures State() == OnHashReq(old(State()), first, count, src.Chunks())
    {
      hide Whole;
      hide LearnRange;
      var ok, hs := src.Hashes(first, count);
      if !ok {
        WriteFrame(Error(ERR_PROTOCOL, []));
        closed := true;
        return;
      }
      WriteFrame(Hash(first, count, hs));
    }

    /** The check that ends every turn of serve. */
    method CheckDone()
      requires Valid()
      modifies this`out, this`doneSent, this`completed
      ensures Valid() && State() == MaybeDone(old(State()), src.layout.Chunks())
    {
      hide Whole;
      hide Count;
      hide Opened;
      hide Flatten;
      hide KnownOrZero;
      hide CachedRange;
      hide Split;
      var n := src.layout.Chunks();
      var known := src.AllKnown();
      if !closed && !doneSent && (lastRequested || n == 0) && known {
        var root := src.Root();
        SplitOther(Done(root), limit);
        WriteFrame(Done(root));
        doneSent := true;
        completed := completed + 1;
      }
    }

    /** One turn of serve's loop. */
    method Turn(f: Frame)
      requires Valid() && !closed
      modifies this, src`known, src.hashes, src.have, buf
      ensures Valid() && src.Chunks() == old(src.Chunks())
      ensures State() == Serve(old(State()), f, src.Chunks(), limit)
    {
      hide Whole;
      hide OnReq;
      hide OnHashReq;
      match f {
        case Req(first, count) => Request(first, count);
        case HashReq(first, count) => HashRequest(first, count);
        case _ =>
      }
      CheckDone();
    }

    /** serve over the frames a peer sends, while the source stays as it is. */
    method ServeLoop(frames: seq<Frame>)
      requires Valid()
      modifies this, src`known, src.hashes, src.have, buf
      ensures Valid() && src.Chunks() == old(src.Chunks())
      ensures State() == ServeAll(old(State()), frames, Unchanging(src.Chunks(), |frames|), limit)
    {
      hide Whole;
      hide Serve;
      ghost var bytes, before := src.Chunks(), State();
      var k := 0;
      while k < |frames| && !closed
        invariant Valid() && src.Chunks() == bytes && 0 <= k <= |frames|
        invariant ServeAll(State(), frames[k..], Unchanging(bytes, |frames| - k), limit)
                  == ServeAll(before, frames, Unchanging(bytes, |frames|), limit)
      {
        assert frames[k..][1..] == frames[k + 1..];
        assert Unchanging(bytes, |frames| - k)[1..] == Unchanging(bytes, |frames| - (k + 1));
        Turn(frames[k]);
        k := k + 1;
      }
    }
  }

  lemma SplitOther(f: Frame, limit: nat)
    requires !f.Data?
    ensures Split(f, limit) == [f]
  {
  }

  /** One chunk of a REQ: its frames go out and its hash is learned. */
  lemma Served(cache: map<nat, Digest>, bytes: seq<seq<byte>>, out: seq<Frame>, i: nat, count: nat, limit: nat)
    requires 0 < count && i + count <= |bytes| && limit > DATA_HEADER
    ensures LearnRange(cache, bytes, i, count) == LearnRange(Learn(cache, i, bytes[i]), bytes, i + 1, count - 1)
    ensures out + DataFrames(bytes, i, count, limit)
            == out + Split(Data(U32(i), 0, bytes[i]), limit) + DataFrames(bytes, i + 1, count - 1, limit)
  {
    Regroup(out, Split(Data(U32(i), 0, bytes[i]), limit), DataFrames(bytes, i + 1, count - 1, limit));
  }

  lemma ServedAll(cache: map<nat, Digest>, bytes: seq<seq<byte>>, out: seq<Frame>, i: nat, limit: nat)
    requires i <= |bytes| && limit > DATA_HEADER
    ensures LearnRange(cache, bytes, i, 0) == cache && out + DataFrames(bytes, i, 0, limit) == out
  {
  }
}
