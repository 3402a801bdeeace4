/** The codec as it runs: Encode filling a buffer, Read and Decode over a
    buffered reader, SplitData's loop. Each is proved against module Wire. */
module WireIO {
  import opened Bytes
  import opened Wire

  datatype ReadError = EndOfStream | UnexpectedEnd | BadFrame

  const DECODE_BUFFER: nat := 4096

  /** bufio.Reader over a reader that delivers what it is asked for while it has
      it: src is still undelivered, buf is delivered but not yet read. */
  class BufReader {
    const size: nat
    var src: seq<byte>
    var buf: seq<byte>

    ghost predicate Valid()
      reads this
    {
      16 <= size && |buf| <= size
    }

    ghost function Stream(): seq<byte>
      reads this
    {
      buf + src
    }

    constructor (s: seq<byte>, n: nat)
      requires 16 <= n
      ensures Valid() && size == n && buf == [] && src == s
    {
      size, src, buf := n, s, [];
    }

    /** One call of Read for n bytes: from the buffer when it holds anything,
        straight from the source for a large request, else after one refill. */
    method Read(n: nat) returns (p: seq<byte>)
      requires Valid() && n > 0
      modifies this
      ensures Valid()
      ensures (p, buf, src) == OneRead(old(buf), old(src), n, size)
    {
      if buf == [] {
        if n >= size {
          var k := Min(n, |src|);
          p, src := src[..k], src[k..];
          return;
        }
        var k := Min(size, |src|);
        buf, src := src[..k], src[k..];
      }
      var k := Min(n, |buf|);
      p, buf := buf[..k], buf[k..];
    }

    /** io.ReadFull: exactly n bytes, or failure when the stream has fewer. */
    method ReadFull(n: nat) returns (p: seq<byte>, ok: bool)
      requires Valid()
      modifies this
      ensures Valid()
      ensures ok <==> n <= |old(Stream())|
      ensures ok ==> p == old(Stream())[..n] && Stream() == old(Stream())[n..]
      ensures ok ==> |buf| == Left(|old(buf)|, |old(src)|, n, size)
    {
      hide OneRead;
      hide Filling;
      hide Left;
      p := [];
      FillingStarts(buf, src, n, size);
      while |p| < n
        invariant Valid() && |p| <= n && Filling(p, buf, src, n, size, old(buf), old(src))
      {
        FillingStep(p, buf, src, n, size, old(buf), old(src));
        var more := Read(n - |p|);
        if more == [] {
          ok := false;
          return;
        }
        p := p + more;
      }
      ok := true;
      FillingEnds(p, buf, src, n, size, old(buf), old(src));
    }

    /** wire.Read: one frame off the stream, consuming exactly its encoding. The
        last clause says what a successful read leaves buffered, see Leftover. */
    method ReadFrame() returns (res: Result<Frame, ReadError>)
      requires Valid()
      modifies this
      ensures Valid()
      ensures res == Reading(old(Stream()))
      ensures res.Ok? ==> Stream() == old(Stream())[Parse(old(Stream())).used..]
      ensures res.Ok? && old(buf) == [] ==>
                |buf| == Leftover(|old(src)|, Parse(old(Stream())).used, size)
    {
      hide Parse;
      hide Assemble;
      hide BodyLength;
      hide HeaderLength;
      hide Leftover;
      hide Left;
      ghost var s, b0, s0 := Stream(), |buf|, |src|;
      var tb, ok := ReadFull(1);
      if !ok {
        ParseNothing(s);
        return Err(EndOfStream);
      }
      ghost var b1, s1 := |buf|, |src|;
      var t := tb[0];
      var head := HeaderLength(t);
      var h;
      h, ok := ReadFull(head);
      HeaderOnly(s);
      if !ok {
        return Err(UnexpectedEnd);
      }
      assert h == s[1..1 + head];
      ghost var b2, s2 := |buf|, |src|;
      var n := BodyLength(t, h);
      if n < 0 {
        return Err(BadFrame);
      }
      var p;
      p, ok := ReadFull(n);
      if !ok {
        return Err(UnexpectedEnd);
      }
      assert p == s[1 + head..1 + head + n];
      res := Ok(Assemble(t, h, p));
      assert Stream() == s[Parse(s).used..];
      if b0 == 0 {
        LeftoverSteps(s0, head, n, size);
      }
    }
  }

  /** Bytes buffered after reading n from a reader that had b buffered and s behind them. */
  function Left(b: nat, s: nat, n: nat, size: nat): int {
    if n <= b then b - n
    else if n - b >= size then 0
    else Min(size, s) - (n - b)
  }

  /** Reading type, header and body in turn from a fresh reader leaves Leftover. */
  lemma LeftoverSteps(total: nat, head: nat, n: nat, size: nat)
    requires 16 <= size && head <= 12 && 1 + head + n <= total
    ensures var b1 := Left(0, total, 1, size);
            var b2 := Left(b1, total - 1 - b1, head, size);
            b1 >= 0 && b2 >= 0 && Left(b2, total - 1 - head - b2, n, size) == Leftover(total, 1 + head + n, size)
  {
  }

  /** What one Read returns and leaves: bytes read, buffer, source. */
  function OneRead(buf: seq<byte>, src: seq<byte>, n: nat, size: nat): (seq<byte>, seq<byte>, seq<byte>) {
    if buf == [] && n >= size then
      var k := Min(n, |src|);
      (src[..k], [], src[k..])
    else
      var fill := Min(size, |src|);
      var (b, s) := if buf == [] then (src[..fill], src[fill..]) else (buf, src);
      var k := Min(n, |b|);
      (b[..k], b[k..], s)
  }

  /** One Read takes a prefix of the stream, empty only at its end. */
  lemma OneReadTakes(buf: seq<byte>, src: seq<byte>, n: nat, size: nat)
    requires n > 0 && size > 0
    ensures var (p, b, s) := OneRead(buf, src, n, size);
            p + (b + s) == buf + src && |p| <= n && (p == [] ==> buf + src == []) &&
            (buf != [] ==> |p| == Min(n, |buf|) && |b| == |buf| - |p| && s == src) &&
            (buf == [] && n <= |src| ==> |p| == n && |b| == Left(0, |src|, n, size))
  {
  }

  /** Of n bytes asked for of the stream buf0 + src0, p have been read and buf + src remain. */
  ghost predicate Filling(p: seq<byte>, buf: seq<byte>, src: seq<byte>, n: nat, size: nat,
                          buf0: seq<byte>, src0: seq<byte>)
  {
    p + (buf + src) == buf0 + src0 &&
    (|p| <= |buf0| ==> |buf| == |buf0| - |p| && src == src0) &&
    (|p| > |buf0| && n <= |buf0| + |src0| ==> |p| == n && |buf| == Left(|buf0|, |src0|, n, size))
  }

  lemma FillingStarts(buf: seq<byte>, src: seq<byte>, n: nat, size: nat)
    ensures Filling([], buf, src, n, size, buf, src)
  {
    assert [] + (buf + src) == buf + src;
  }

  lemma FillingStep(p: seq<byte>, buf: seq<byte>, src: seq<byte>, n: nat, size: nat, buf0: seq<byte>, src0: seq<byte>)
    requires |p| < n && size > 0 && Filling(p, buf, src, n, size, buf0, src0)
    ensures var (more, b, s) := OneRead(buf, src, n - |p|, size);
            |p + more| <= n && (more == [] ==> |buf0| + |src0| < n) &&
            (more != [] ==> Filling(p + more, b, s, n, size, buf0, src0))
  {
    hide OneRead;
    OneReadTakes(buf, src, n - |p|, size);
    var (more, b, s) := OneRead(buf, src, n - |p|, size);
    Regroup(p, more, b + s);
    assert |p + (buf + src)| == |buf0 + src0|;
  }

  lemma FillingEnds(p: seq<byte>, buf: seq<byte>, src: seq<byte>, n: nat, size: nat, buf0: seq<byte>, src0: seq<byte>)
    requires |p| == n && Filling(p, buf, src, n, size, buf0, src0)
    ensures n <= |buf0 + src0| && p == (buf0 + src0)[..n] && buf + src == (buf0 + src0)[n..]
    ensures |buf| == Left(|buf0|, |src0|, n, size)
  {
    TakeDrop(p, buf + src);
    assert |p + (buf + src)| == |buf0 + src0|;
  }

  lemma Regroup<T>(p: seq<T>, more: seq<T>, rest: seq<T>)
    ensures p + more + rest == p + (more + rest)
  {
  }

  lemma TakeDrop(p: seq<byte>, rest: seq<byte>)
    ensures (p + rest)[..|p|] == p && (p + rest)[|p|..] == rest
  {
  }

  /** Bytes of fixed header after the type byte. */
  function HeaderLength(t: byte): (n: nat)
    ensures n <= 12
  {
    if t == TREQ || t == THASH_REQ || t == TCANCEL || t == THASH then 8
    else if t == TDATA then 12
    else if t == TERROR then 3
    else 0
  }

  /** Length of what follows the header; negative when the header is refused. */
  function BodyLength(t: byte, h: seq<byte>): int
    requires |h| == HeaderLength(t)
  {
    if t == TAUTH then 48
    else if t == TDONE then 32
    else if t == TDATA then if GetU32(h[8..12]) > CHUNK_SIZE then -1 else GetU32(h[8..12])
    else if t == THASH then if GetU32(h[4..8]) > MAX_HASH_COUNT then -1 else 32 * GetU32(h[4..8])
    else if t == TERROR then if GetU16(h[1..3]) > MAX_ERROR_LEN then -1 else GetU16(h[1..3])
    else if IsTag(t) then 0
    else -1
  }

  function Assemble(t: byte, h: seq<byte>, p: seq<byte>): Frame
    requires |h| == HeaderLength(t)
  {
    if t == TAUTH then Auth(p)
    else if t == TDONE then Done(p)
    else if t == TMANIFEST_ACK then ManifestAck
    else if t == TREQ then Req(GetU32(h[..4]), GetU32(h[4..]))
    else if t == THASH_REQ then HashReq(GetU32(h[..4]), GetU32(h[4..]))
    else if t == TCANCEL then Cancel(GetU32(h[..4]), GetU32(h[4..]))
    else if t == TDATA then Data(GetU32(h[..4]), GetU32(h[4..8]), p)
    else if t == THASH then Hash(GetU32(h[..4]), GetU32(h[4..]), p)
    else if t == TERROR then Error(h[0], p)
    else Unknown(t)
  }

  lemma ParseNothing(s: seq<byte>)
    ensures Parse(s) == Eof <==> s == []
  {
  }

  /** The staged reading of header and body agrees with Parse. */
  lemma HeaderOnly(s: seq<byte>)
    requires s != []
    ensures |s| < 1 + HeaderLength(s[0]) ==> Parse(s) == Truncated
    ensures |s| >= 1 + HeaderLength(s[0]) ==>
              var head := HeaderLength(s[0]);
              var h := s[1..1 + head];
              var n := BodyLength(s[0], h);
              Parse(s) == if n < 0 then Malformed
                          else if 1 + head + n > |s| then Truncated
                          else Parsed(Assemble(s[0], h, s[1 + head..1 + head + n]), 1 + head + n)
  {
    if |s| >= 1 + HeaderLength(s[0]) {
      var m := HeaderLength(s[0]);
      var h := s[1..1 + m];
      if m >= 8 {
        SliceOfSlice(s, 1, 1 + m, 0, 4);
        SliceOfSlice(s, 1, 1 + m, 4, 8);
        SliceOfSlice(s, 1, 1 + m, 4, m);
        if m == 12 {
          SliceOfSlice(s, 1, 1 + m, 8, 12);
        }
      } else if m == 3 {
        SliceOfSlice(s, 1, 1 + m, 1, 3);
      }
    }
  }

  /** The result of wire.Read on a stream holding exactly s. */
  function Reading(s: seq<byte>): Result<Frame, ReadError> {
    match Parse(s)
    case Parsed(f, _) => Ok(f)
    case Eof => Err(EndOfStream)
    case Truncated => Err(UnexpectedEnd)
    case Malformed => Err(BadFrame)
  }

  /** Bytes still buffered after a frame of used bytes was read from a fresh
      reader over total bytes: the first refill serves the header; a body that
      outruns it by a whole buffer or more is read past the buffer. */
  function Leftover(total: nat, used: nat, size: nat): int {
    if used <= Min(size, total) then Min(size, total) - used
    else if used - size >= size then 0
    else Min(size, total - size) - (used - size)
  }

  /** What Decode makes of a message: the frame it starts with, provided nothing
      of the message is left in the reader's buffer. */
  function Decoded(b: seq<byte>): Result<Frame, ReadError> {
    var r := Reading(b);
    if r.Ok? && Leftover(|b|, Parse(b).used, DECODE_BUFFER) != 0 then Err(BadFrame) else r
  }

  method Decode(b: seq<byte>) returns (res: Result<Frame, ReadError>)
    ensures res == Decoded(b)
  {
    var br := new BufReader(b, DECODE_BUFFER);
    assert br.Stream() == b;
    res := br.ReadFrame();
    if res.Ok? && |br.buf| != 0 {
      return Err(BadFrame);
    }
  }

  /** Decode accepts a message exactly when it starts with a frame, and either
      nothing follows that frame, or the frame is one whose bytes past the
      first 4096 never sit in the buffer. */
  lemma DecodeAcceptsIff(b: seq<byte>)
    ensures Decoded(b).Ok? <==>
            Parse(b).Parsed? && (Parse(b).used == |b| || Parse(b).used == 4096 || Parse(b).used >= 8192)
    ensures Decoded(b).Ok? ==> Decoded(b).value == Parse(b).frame
  {
    if Parse(b).Parsed? {
      EncodingOfParsed(b);
    }
  }

  /** A frame sent as a message of its own is received as it is, whatever its length. */
  lemma DecodeEncoding(f: Frame)
    requires WellFormed(f)
    ensures Decoded(Encoding(f)) == Ok(f)
  {
    ParseEncoding(f, []);
    assert Encoding(f) + [] == Encoding(f);
    DecodeAcceptsIff(Encoding(f));
  }

  /** On messages that fit the buffer, Decode accepts exactly the encodings of frames. */
  lemma DecodeSmallIff(b: seq<byte>)
    requires |b| <= 4096
    ensures Decoded(b).Ok? <==> exists f :: WellFormed(f) && Encoding(f) == b
    ensures forall f :: WellFormed(f) && Encoding(f) == b ==> Decoded(b) == Ok(f)
  {
    DecodeAcceptsIff(b);
    if Decoded(b).Ok? {
      EncodingOfParsed(b);
      assert WellFormed(Parse(b).frame) && Encoding(Parse(b).frame) == b;
    }
    forall f | WellFormed(f) && Encoding(f) == b ensures Decoded(b) == Ok(f) {
      ParseEncoding(f, []);
      assert b + [] == b;
    }
  }

  /** "Exactly one frame" fails for long DATA: a frame of 8192 bytes followed by a stray byte is accepted. */
  lemma DecodeTrailingByte()
    ensures var f := Data(0, 0, seq(8179, _ => 0));
            Decoded(Encoding(f) + [0]) == Ok(f) && Parse(Encoding(f) + [0]).used == |Encoding(f) + [0]| - 1
  {
    var f := Data(0, 0, seq(8179, _ => 0));
    ParseEncoding(f, [0]);
    DecodeAcceptsIff(Encoding(f) + [0]);
  }

  // ----- Encode and SplitData

  /** copy(b[at:], p). */
  method Put(b: array<byte>, at: nat, p: seq<byte>)
    requires at + |p| <= b.Length
    modifies b
    ensures b[..at + |p|] == old(b[..at]) + p
  {
    forall i | 0 <= i < |p| {
      b[at + i] := p[i];
    }
  }

  method Encode(f: Frame) returns (b: array<byte>)
    ensures fresh(b) && b[..] == Encoding(f)
  {
    match f
    case Auth(p) =>
      b := EncodeTagged(TAUTH, p);
    case Done(p) =>
      b := EncodeTagged(TDONE, p);
    case ManifestAck =>
      b := EncodeTagged(TMANIFEST_ACK, []);
    case Req(first, count) =>
      b := EncodeRange(TREQ, first, count, []);
    case HashReq(first, count) =>
      b := EncodeRange(THASH_REQ, first, count, []);
    case Cancel(first, count) =>
      b := EncodeRange(TCANCEL, first, count, []);
    case Hash(first, count, p) =>
      b := EncodeRange(THASH, first, count, p);
    case Data(index, offset, p) =>
      b := EncodeData(index, offset, p);
    case Error(code, p) =>
      var msg := if |p| > MAX_ERROR_LEN then p[..MAX_ERROR_LEN] else p;
      b := EncodeError(code, msg);
    case Unknown(tag) =>
      b := EncodeTagged(tag, []);
  }

  method EncodeTagged(t: byte, p: seq<byte>) returns (b: array<byte>)
    ensures fresh(b) && b[..] == [t] + p
  {
    b := new byte[1 + |p|];
    b[0] := t;
    assert b[..1] == [t];
    Put(b, 1, p);
    Filled(b);
  }

  method EncodeRange(t: byte, first: uint32, count: uint32, p: seq<byte>) returns (b: array<byte>)
    ensures fresh(b) && b[..] == [t] + PutU32(first) + PutU32(count) + p
  {
    b := new byte[9 + |p|];
    b[0] := t;
    assert b[..1] == [t];
    Put(b, 1, PutU32(first));
    Put(b, 5, PutU32(count));
    Put(b, 9, p);
    Filled(b);
  }

  method EncodeData(index: uint32, offset: uint32, p: seq<byte>) returns (b: array<byte>)
    ensures fresh(b)
    ensures b[..] == [TDATA] + PutU32(index) + PutU32(offset) + PutU32(U32(|p|)) + p
  {
    b := new byte[DATA_HEADER + |p|];
    b[0] := TDATA;
    assert b[..1] == [TDATA];
    Put(b, 1, PutU32(index));
    Put(b, 5, PutU32(offset));
    Put(b, 9, PutU32(U32(|p|)));
    Put(b, DATA_HEADER, p);
    Filled(b);
  }

  method EncodeError(code: byte, msg: seq<byte>) returns (b: array<byte>)
    ensures fresh(b) && b[..] == [TERROR, code] + PutU16(|msg|) + msg
  {
    b := new byte[4 + |msg|];
    b[0] := TERROR;
    b[1] := code;
    assert b[..2] == [TERROR, code];
    Put(b, 2, PutU16(|msg|));
    Put(b, 4, msg);
    Filled(b);
  }

  lemma Filled(b: array<byte>)
    ensures b[..b.Length] == b[..]
  {
  }

  /** The fragment the loop adds is the next of the pieces. */
  lemma PiecesNext(f: Frame, off: nat, per: nat, end: nat, piece: Frame, out: seq<Frame>)
    requires f.Data? && per > 0 && off < |f.payload| && end == Min(off + per, |f.payload|)
    requires piece == Data(f.index, U32(f.offset + U32(off)), f.payload[off..end])
    ensures out + Pieces(f.index, f.offset, f.payload, off, per)
            == out + [piece] + Pieces(f.index, f.offset, f.payload, off + per, per)
  {
    Regroup(out, [piece], Pieces(f.index, f.offset, f.payload, off + per, per));
  }

  lemma PiecesDone(f: Frame, off: nat, per: nat, out: seq<Frame>)
    requires f.Data? && per > 0 && off >= |f.payload|
    ensures out + Pieces(f.index, f.offset, f.payload, off, per) == out
  {
  }

  method SplitData(f: Frame, max: nat) returns (out: seq<Frame>)
    requires Splittable(f, max)
    ensures out == Split(f, max)
  {
    if !f.Data? || |f.payload| + DATA_HEADER <= max {
      return [f];
    }
    var per := max - DATA_HEADER;
    out := [];
    if f.payload != [] {
      out := SplitLong(f, per);
    }
  }

  method SplitLong(f: Frame, per: nat) returns (out: seq<Frame>)
    requires f.Data? && per > 0
    ensures out == Pieces(f.index, f.offset, f.payload, 0, per)
  {
    hide Pieces;
    ghost var all := Pieces(f.index, f.offset, f.payload, 0, per);
    out := [];
    var off := 0;
    while off < |f.payload|
      invariant 0 <= off && out + Pieces(f.index, f.offset, f.payload, off, per) == all
    {
      var end := off + per;
      if end > |f.payload| {
        end := |f.payload|;
      }
      var piece := Data(f.index, U32(f.offset + U32(off)), f.payload[off..end]);
      PiecesNext(f, off, per, end, piece, out);
      out := out + [piece];
      off := off + per;
    }
    PiecesDone(f, off, per, out);
  }
}
