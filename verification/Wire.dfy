/** The frame codec as functions: what Encode writes, what Read takes off a
    byte stream, and how DATA is split, with the laws that tie them together. */
module Wire {
  import opened Bytes

  const TAUTH: byte := 0x01
  const TMANIFEST_ACK: byte := 0x02
  const TREQ: byte := 0x10
  const TDATA: byte := 0x11
  const THASH_REQ: byte := 0x12
  const THASH: byte := 0x13
  const TDONE: byte := 0x14
  const TCANCEL: byte := 0x20
  const TERROR: byte := 0x7f

  const ERR_PROTOCOL: byte := 4

  const CHUNK_SIZE: nat := 262144
  const MAX_MESSAGE: nat := 65536
  const DATA_HEADER: nat := 13
  const MAX_HASH_COUNT: nat := 4096
  const MAX_ERROR_LEN: nat := 4096

  /** A frame, one constructor a type byte, with the fields that type uses.
      Unknown stands for a frame whose type byte is none of the nine. */
  datatype Frame =
    | Auth(payload: seq<byte>)
    | ManifestAck
    | Req(first: uint32, count: uint32)
    | Data(index: uint32, offset: uint32, payload: seq<byte>)
    | HashReq(first: uint32, count: uint32)
    | Hash(first: uint32, count: uint32, payload: seq<byte>)
    | Done(payload: seq<byte>)
    | Cancel(first: uint32, count: uint32)
    | Error(code: byte, payload: seq<byte>)
    | Unknown(tag: byte)

  predicate IsTag(t: byte) {
    t == TAUTH || t == TMANIFEST_ACK || t == TREQ || t == TDATA || t == THASH_REQ ||
    t == THASH || t == TDONE || t == TCANCEL || t == TERROR
  }

  /** The frames that survive the wire: payloads of the length Read insists on. */
  predicate WellFormed(f: Frame) {
    match f
    case Auth(p) => |p| == 48
    case Done(p) => |p| == 32
    case Data(_, _, p) => |p| <= CHUNK_SIZE
    case Hash(_, count, p) => count <= MAX_HASH_COUNT && |p| == 32 * count
    case Error(_, p) => |p| <= MAX_ERROR_LEN
    case Unknown(_) => false
    case _ => true
  }

  /** The bytes Encode produces. */
  function Encoding(f: Frame): (b: seq<byte>)
    ensures |b| > 0
  {
    match f
    case Auth(p) => [TAUTH] + p
    case Done(p) => [TDONE] + p
    case ManifestAck => [TMANIFEST_ACK]
    case Req(first, count) => [TREQ] + PutU32(first) + PutU32(count)
    case HashReq(first, count) => [THASH_REQ] + PutU32(first) + PutU32(count)
    case Cancel(first, count) => [TCANCEL] + PutU32(first) + PutU32(count)
    case Data(index, offset, p) => [TDATA] + PutU32(index) + PutU32(offset) + PutU32(U32(|p|)) + p
    case Hash(first, count, p) => [THASH] + PutU32(first) + PutU32(count) + p
    case Error(code, p) =>
      var msg := if |p| > MAX_ERROR_LEN then p[..MAX_ERROR_LEN] else p;
      [TERROR, code] + PutU16(|msg|) + msg
    case Unknown(tag) => [tag]
  }

  /** Outcome of reading one frame: a frame and the bytes it took, a clean end
      of stream, a stream cut inside a frame, or a malformed frame. */
  datatype Parsed = Parsed(frame: Frame, used: nat) | Eof | Truncated | Malformed

  /** Reads a body of n bytes that starts at position at. */
  function Body(s: seq<byte>, at: nat, n: nat, make: seq<byte> -> Frame): Parsed {
    if at + n <= |s| then Parsed(make(s[at..at + n]), at + n) else Truncated
  }

  /** What Read makes of a stream holding exactly s. */
  function Parse(s: seq<byte>): Parsed {
    if s == [] then Eof
    else
      var t := s[0];
      if t == TAUTH then Body(s, 1, 48, p => Auth(p))
      else if t == TDONE then Body(s, 1, 32, p => Done(p))
      else if t == TMANIFEST_ACK then Parsed(ManifestAck, 1)
      else if t == TREQ || t == THASH_REQ || t == TCANCEL then
        if |s| < 9 then Truncated
        else
          var first, count := GetU32(s[1..5]), GetU32(s[5..9]);
          Parsed(if t == TREQ then Req(first, count)
                 else if t == THASH_REQ then HashReq(first, count)
                 else Cancel(first, count), 9)
      else if t == TDATA then
        if |s| < 13 then Truncated
        else if GetU32(s[9..13]) > CHUNK_SIZE then Malformed
        else Body(s, 13, GetU32(s[9..13]), p => Data(GetU32(s[1..5]), GetU32(s[5..9]), p))
      else if t == THASH then
        if |s| < 9 then Truncated
        else if GetU32(s[5..9]) > MAX_HASH_COUNT then Malformed
        else Body(s, 9, 32 * GetU32(s[5..9]), p => Hash(GetU32(s[1..5]), GetU32(s[5..9]), p))
      else if t == TERROR then
        if |s| < 4 then Truncated
        else if GetU16(s[2..4]) > MAX_ERROR_LEN then Malformed
        else Body(s, 4, GetU16(s[2..4]), p => Error(s[1], p))
      else Malformed
  }

  // ----- printing then parsing

  /** Reading an encoding gives back the frame and leaves the rest of the stream. */
  lemma ParseEncoding(f: Frame, rest: seq<byte>)
    requires WellFormed(f)
    ensures Parse(Encoding(f) + rest) == Parsed(f, |Encoding(f)|)
  {
    var s := Encoding(f) + rest;
    match f
    case Auth(p) =>
      assert s[1..1 + 48] == p;
    case Done(p) =>
      assert s[1..1 + 32] == p;
    case ManifestAck =>
    case Req(first, count) =>
      ParseRange(f, s, first, count);
    case HashReq(first, count) =>
      ParseRange(f, s, first, count);
    case Cancel(first, count) =>
      ParseRange(f, s, first, count);
    case Data(_, _, _) =>
      ParseData(f, s);
    case Hash(_, _, _) =>
      ParseHash(f, s);
    case Error(_, _) =>
      ParseError(f, s);
  }

  lemma ParseData(f: Frame, s: seq<byte>)
    requires f.Data? && WellFormed(f) && Encoding(f) <= s
    ensures Parse(s) == Parsed(f, |Encoding(f)|)
  {
    hide PutU32;
    hide GetU32;
    var e, p := Encoding(f), f.payload;
    U32RoundTrip(f.index);
    U32RoundTrip(f.offset);
    U32RoundTrip(U32(|p|));
    assert s[1..5] == e[1..5] == PutU32(f.index);
    assert s[5..9] == e[5..9] == PutU32(f.offset);
    assert s[9..13] == e[9..13] == PutU32(U32(|p|));
    assert s[13..13 + |p|] == e[13..] == p;
  }

  lemma ParseHash(f: Frame, s: seq<byte>)
    requires f.Hash? && WellFormed(f) && Encoding(f) <= s
    ensures Parse(s) == Parsed(f, |Encoding(f)|)
  {
    hide PutU32;
    hide GetU32;
    var e, p := Encoding(f), f.payload;
    U32RoundTrip(f.first);
    U32RoundTrip(f.count);
    assert s[1..5] == e[1..5] == PutU32(f.first);
    assert s[5..9] == e[5..9] == PutU32(f.count);
    assert s[9..9 + |p|] == e[9..] == p;
  }

  lemma ParseError(f: Frame, s: seq<byte>)
    requires f.Error? && WellFormed(f) && Encoding(f) <= s
    ensures Parse(s) == Parsed(f, |Encoding(f)|)
  {
    var e, p := Encoding(f), f.payload;
    U16RoundTrip(|p|);
    assert s[2..4] == e[2..4] == PutU16(|p|);
    assert s[4..4 + |p|] == e[4..] == p;
  }

  lemma ParseRange(f: Frame, s: seq<byte>, first: uint32, count: uint32)
    requires f == Req(first, count) || f == HashReq(first, count) || f == Cancel(first, count)
    requires Encoding(f) <= s
    ensures Parse(s) == Parsed(f, 9)
  {
    U32RoundTrip(first);
    U32RoundTrip(count);
    assert s[1..5] == Encoding(f)[1..5] == PutU32(first);
    assert s[5..9] == Encoding(f)[5..9] == PutU32(count);
  }

  // ----- parsing then printing

  /** A frame that was read is well formed and re-encodes to exactly the bytes consumed. */
  lemma EncodingOfParsed(s: seq<byte>)
    requires Parse(s).Parsed?
    ensures Parse(s).used <= |s|
    ensures WellFormed(Parse(s).frame)
    ensures Encoding(Parse(s).frame) == s[..Parse(s).used]
  {
    var t := s[0];
    if t == TREQ || t == THASH_REQ || t == TCANCEL {
      U32Unique(s[1..5]);
      U32Unique(s[5..9]);
      assert [t] + s[1..5] + s[5..9] == s[..9];
    } else if t == TDATA {
      DataOfParsed(s);
    } else if t == THASH {
      HashOfParsed(s);
    } else if t == TERROR {
      ErrorOfParsed(s);
    }
  }

  lemma DataOfParsed(s: seq<byte>)
    requires Parse(s).Parsed? && s[0] == TDATA
    ensures var p := Parse(s);
            p.used <= |s| && WellFormed(p.frame) && Encoding(p.frame) == s[..p.used]
  {
    hide PutU32;
    hide GetU32;
    U32Unique(s[1..5]);
    U32Unique(s[5..9]);
    U32Unique(s[9..13]);
    var n := GetU32(s[9..13]);
    assert s[..1] == [s[0]];
    ExtendSlice(s, 1, 5);
    ExtendSlice(s, 5, 9);
    ExtendSlice(s, 9, 13);
    ExtendSlice(s, 13, 13 + n);
  }

  lemma HashOfParsed(s: seq<byte>)
    requires Parse(s).Parsed? && s[0] == THASH
    ensures var p := Parse(s);
            p.used <= |s| && WellFormed(p.frame) && Encoding(p.frame) == s[..p.used]
  {
    hide PutU32;
    hide GetU32;
    U32Unique(s[1..5]);
    U32Unique(s[5..9]);
    var n := 32 * GetU32(s[5..9]);
    assert s[..1] == [s[0]];
    ExtendSlice(s, 1, 5);
    ExtendSlice(s, 5, 9);
    ExtendSlice(s, 9, 9 + n);
  }

  lemma ErrorOfParsed(s: seq<byte>)
    requires Parse(s).Parsed? && s[0] == TERROR
    ensures var p := Parse(s);
            p.used <= |s| && WellFormed(p.frame) && Encoding(p.frame) == s[..p.used]
  {
    U16Unique(s[2..4]);
    var n := GetU16(s[2..4]);
    assert [s[0], s[1]] + s[2..4] + s[4..4 + n] == s[..4 + n];
  }

  /** A frame round-trips if and only if it is well formed: payloads of 48, 32 and
      32 * count bytes, at most 262144 bytes of data, 4096 hashes or 4096 bytes of message. */
  lemma RoundTripIff(f: Frame)
    ensures Parse(Encoding(f)) == Parsed(f, |Encoding(f)|) <==> WellFormed(f)
    ensures WellFormed(f) <==>
            match f
            case Auth(p) => |p| == 48
            case Done(p) => |p| == 32
            case Data(_, _, p) => |p| <= 262144
            case Hash(_, count, p) => count <= 4096 && |p| == 32 * count
            case Error(_, p) => |p| <= 4096
            case Unknown(_) => false
            case _ => true
  {
    assert Encoding(f) + [] == Encoding(f);
    if WellFormed(f) {
      ParseEncoding(f, []);
    } else if Parse(Encoding(f)) == Parsed(f, |Encoding(f)|) {
      EncodingOfParsed(Encoding(f));
    }
  }

  lemma SliceOfPrefix(s: seq<byte>, k: nat, a: nat, b: nat)
    requires a <= b <= k <= |s|
    ensures s[..k][a..b] == s[a..b]
  {
  }

  /** Cutting an encoding anywhere inside is noticed as a cut, at its start as the
      end of the stream: no proper prefix of an encoding reads as a frame. */
  lemma PrefixIsCut(f: Frame, k: nat)
    requires WellFormed(f) && k < |Encoding(f)|
    ensures Parse(Encoding(f)[..k]) == if k == 0 then Eof else Truncated
  {
    hide PutU32;
    hide GetU32;
    hide PutU16;
    hide GetU16;
    var s := Encoding(f);
    var c := s[..k];
    if k > 0 {
      assert s + [] == s;
      ParseEncoding(f, []);
      assert c[0] == s[0];
      if k >= 13 { SliceOfPrefix(s, k, 9, 13); }
      if k >= 9 { SliceOfPrefix(s, k, 5, 9); }
      if k >= 4 { SliceOfPrefix(s, k, 2, 4); }
    }
  }

  // ----- streams of frames

  function EncodeAll(fs: seq<Frame>): seq<byte> {
    if fs == [] then [] else Encoding(fs[0]) + EncodeAll(fs[1..])
  }

  /** Reads frames until the stream ends or goes wrong. The second component
      is how the stream ended. */
  function ParseAll(s: seq<byte>): (seq<Frame>, Parsed)
    decreases |s|
  {
    var p := Parse(s);
    if !p.Parsed? then ([], p)
    else
      EncodingOfParsed(s);
      var (fs, e) := ParseAll(s[p.used..]);
      ([p.frame] + fs, e)
  }

  /** Reading the concatenated encodings of any frames returns those frames, then a clean end. */
  lemma {:induction false} StreamRoundTrip(fs: seq<Frame>)
    requires forall k :: 0 <= k < |fs| ==> WellFormed(fs[k])
    ensures ParseAll(EncodeAll(fs)) == (fs, Eof)
  {
    hide Parse;
    hide Encoding;
    if fs != [] {
      var s := EncodeAll(fs);
      ParseEncoding(fs[0], EncodeAll(fs[1..]));
      StreamStep(s);
      assert s[|Encoding(fs[0])|..] == EncodeAll(fs[1..]);
      StreamRoundTrip(fs[1..]);
      assert fs == [fs[0]] + fs[1..];
    } else {
      NoFrames();
    }
  }

  lemma NoFrames()
    ensures ParseAll([]) == ([], Eof)
  {
  }

  /** A stream that reads to a clean end is exactly the encoding of the frames read. */
  lemma {:induction false} StreamUnique(s: seq<byte>)
    requires ParseAll(s).1 == Eof
    ensures EncodeAll(ParseAll(s).0) == s
    decreases |s|
  {
    if Parse(s).Parsed? {
      StreamStep(s);
      var used := Parse(s).used;
      StreamUnique(s[used..]);
      JoinStream(s, Parse(s).frame, used, ParseAll(s[used..]).0);
    }
  }

  lemma JoinStream(s: seq<byte>, f: Frame, used: nat, fs: seq<Frame>)
    requires used <= |s| && Encoding(f) == s[..used] && EncodeAll(fs) == s[used..]
    ensures EncodeAll([f] + fs) == s
  {
    assert ([f] + fs)[1..] == fs;
  }

  lemma StreamStep(s: seq<byte>)
    requires Parse(s).Parsed?
    ensures var p := Parse(s); 0 < p.used <= |s| && Encoding(p.frame) == s[..p.used]
    ensures var p := Parse(s);
            var rest := ParseAll(s[p.used..]);
            ParseAll(s) == ([p.frame] + rest.0, rest.1)
  {
    EncodingOfParsed(s);
  }

  // ----- splitting DATA

  /** The DATA frames for payload p of chunk index from byte off on, per bytes each. */
  function Pieces(index: uint32, base: uint32, p: seq<byte>, off: nat, per: nat): seq<Frame>
    requires per > 0
    decreases |p| - off
  {
    if off >= |p| then []
    else
      var end := Min(off + per, |p|);
      [Data(index, U32(base + U32(off)), p[off..end])] + Pieces(index, base, p, off + per, per)
  }

  /** What callers of SplitData owe: room for payload, if there is payload to split. */
  predicate Splittable(f: Frame, max: nat) {
    f.Data? && f.payload != [] && |f.payload| + DATA_HEADER > max ==> max > DATA_HEADER
  }

  /** What SplitData returns. */
  function Split(f: Frame, max: nat): seq<Frame>
    requires Splittable(f, max)
  {
    if !f.Data? || |f.payload| + DATA_HEADER <= max then [f]
    else if f.payload == [] then []
    else Pieces(f.index, f.offset, f.payload, 0, max - DATA_HEADER)
  }

  /** fs are consecutive DATA frames of chunk index carrying d from byte off to
      its end, none of them empty; byte 0 of d is at offset base, in 32 bits. */
  ghost predicate Carries(fs: seq<Frame>, index: uint32, base: uint32, d: seq<byte>, off: nat) {
    if fs == [] then off == |d|
    else
      var f := fs[0];
      f.Data? && f.index == index && f.offset == U32(base + U32(off)) &&
      0 < |f.payload| && off + |f.payload| <= |d| && f.payload == d[off..off + |f.payload|] &&
      Carries(fs[1..], index, base, d, off + |f.payload|)
  }

  /** Splitting a DATA frame yields non-empty consecutive fragments of its payload,
      each encoding within the limit; a frame without payload is kept or, if even
      its header does not fit, dropped. */
  lemma SplitCarries(f: Frame, max: nat)
    requires f.Data? && Splittable(f, max)
    ensures f.payload != [] ==> Carries(Split(f, max), f.index, f.offset, f.payload, 0)
    ensures f.payload == [] ==> Split(f, max) == if DATA_HEADER <= max then [f] else []
    ensures forall g :: g in Split(f, max) ==> |Encoding(g)| <= max
  {
    if |f.payload| + DATA_HEADER <= max {
      assert f.payload[0..|f.payload|] == f.payload;
    } else if f.payload != [] {
      PiecesCarry(f.index, f.offset, f.payload, 0, max);
    }
  }

  lemma {:induction false} PiecesCarry(index: uint32, base: uint32, d: seq<byte>, off: nat, max: nat)
    requires max > DATA_HEADER && off < |d|
    ensures Carries(Pieces(index, base, d, off, max - DATA_HEADER), index, base, d, off)
    ensures forall g :: g in Pieces(index, base, d, off, max - DATA_HEADER) ==> |Encoding(g)| <= max
    decreases |d| - off
  {
    var per := max - DATA_HEADER;
    var ps := Pieces(index, base, d, off, per);
    assert ps[1..] == Pieces(index, base, d, off + per, per);
    if off + per < |d| {
      PiecesCarry(index, base, d, off + per, max);
    }
  }

  /** Every fragment but the last is as long as the limit allows, so there are as few as can be. */
  lemma SplitFull(f: Frame, max: nat)
    requires f.Data? && Splittable(f, max)
    ensures forall k :: 0 <= k < |Split(f, max)| - 1 ==> |Encoding(Split(f, max)[k])| == max
    ensures |f.payload| + 13 > max && f.payload != [] ==>
              |f.payload| <= |Split(f, max)| * (max - 13) < |f.payload| + (max - 13)
  {
    if f.payload != [] && |f.payload| + DATA_HEADER > max {
      PiecesFull(f.index, f.offset, f.payload, 0, max);
      PiecesCount(f.index, f.offset, f.payload, 0, max - DATA_HEADER);
    }
  }

  /** All frames but the last encode to max bytes. */
  predicate Fulls(fs: seq<Frame>, max: nat) {
    forall k :: 0 <= k < |fs| - 1 ==> |Encoding(fs[k])| == max
  }

  lemma {:induction false} PiecesFull(index: uint32, base: uint32, d: seq<byte>, off: nat, max: nat)
    requires max > DATA_HEADER && off < |d|
    ensures Fulls(Pieces(index, base, d, off, max - DATA_HEADER), max)
    decreases |d| - off
  {
    var per := max - DATA_HEADER;
    var ps := Pieces(index, base, d, off, per);
    var rest := Pieces(index, base, d, off + per, per);
    assert ps[1..] == rest;
    if off + per < |d| {
      PiecesFull(index, base, d, off + per, max);
      forall k | 0 <= k < |ps| - 1 ensures |Encoding(ps[k])| == max {
        if k > 0 {
          assert ps[k] == rest[k - 1];
        } else {
          var f := Data(index, U32(base + U32(off)), d[off..off + per]);
          assert |Encoding(f)| == DATA_HEADER + per;
          assert ps[0] == f;
        }
      }
    }
  }

  lemma {:induction false} PiecesCount(index: uint32, base: uint32, d: seq<byte>, off: nat, per: nat)
    requires per > 0 && off < |d|
    ensures |d| - off <= |Pieces(index, base, d, off, per)| * per < |d| - off + per
    decreases |d| - off
  {
    var rest := Pieces(index, base, d, off + per, per);
    var n := |rest|;
    assert |Pieces(index, base, d, off, per)| == n + 1;
    assert (n + 1) * per == n * per + per;
    if off + per < |d| {
      PiecesCount(index, base, d, off + per, per);
    }
  }

  // ----- the layout of frames on the wire

  /** The number n stands at position at of e in four bytes, least significant first. */
  predicate StandsAt(e: seq<byte>, at: nat, n: int) {
    at + 4 <= |e| &&
    n == e[at] as int + 256 * e[at + 1] as int + 65536 * e[at + 2] as int + 16777216 * e[at + 3] as int
  }

  /** Where each part of a frame stands. */
  lemma FrameBytes(f: Frame)
    requires WellFormed(f)
    ensures var e := Encoding(f);
            match f
            case Auth(p) => |e| == 49 && e[0] == 1 && e[1..] == p
            case ManifestAck => e == [2]
            case Req(first, count) => |e| == 9 && e[0] == 16 && StandsAt(e, 1, first) && StandsAt(e, 5, count)
            case Data(index, offset, p) =>
              e[0] == 17 && StandsAt(e, 1, index) && StandsAt(e, 5, offset) && StandsAt(e, 9, |p|) && e[13..] == p
            case HashReq(first, count) => |e| == 9 && e[0] == 18 && StandsAt(e, 1, first) && StandsAt(e, 5, count)
            case Hash(first, count, p) =>
              e[0] == 19 && StandsAt(e, 1, first) && StandsAt(e, 5, count) && e[9..] == p
            case Done(p) => |e| == 33 && e[0] == 20 && e[1..] == p
            case Cancel(first, count) => |e| == 9 && e[0] == 32 && StandsAt(e, 1, first) && StandsAt(e, 5, count)
            case Error(code, p) =>
              |e| == 4 + |p| && e[0] == 127 && e[1] == code && |p| == e[2] as int + 256 * e[3] as int && e[4..] == p
            case Unknown(_) => false
  {
    hide PutU32;
    hide PutU16;
    hide StandsAt;
    match f
    case Req(first, count) => RangeBytes(TREQ, first, count, []);
    case HashReq(first, count) => RangeBytes(THASH_REQ, first, count, []);
    case Cancel(first, count) => RangeBytes(TCANCEL, first, count, []);
    case Hash(first, count, p) => RangeBytes(THASH, first, count, p);
    case Data(index, offset, p) => DataBytes(index, offset, p);
    case Error(code, p) => ErrorBytes(code, p);
    case _ =>
  }

  lemma RangeBytes(tag: byte, first: uint32, count: uint32, p: seq<byte>)
    ensures var e := [tag] + PutU32(first) + PutU32(count) + p;
            |e| == 9 + |p| && e[0] == tag && StandsAt(e, 1, first) && StandsAt(e, 5, count) && e[9..] == p
    ensures [tag] + PutU32(first) + PutU32(count) + [] == [tag] + PutU32(first) + PutU32(count)
  {
    hide PutU32;
    var e := [tag] + PutU32(first) + PutU32(count) + p;
    PutStands(e, 1, first);
    PutStands(e, 5, count);
  }

  lemma DataBytes(index: uint32, offset: uint32, p: seq<byte>)
    requires |p| < MAX32
    ensures var e := Encoding(Data(index, offset, p));
            e[0] == TDATA && StandsAt(e, 1, index) && StandsAt(e, 5, offset) && StandsAt(e, 9, |p|) && e[13..] == p
  {
    hide PutU32;
    var e := Encoding(Data(index, offset, p));
    PutStands(e, 1, index);
    PutStands(e, 5, offset);
    PutStands(e, 9, U32(|p|));
  }

  lemma ErrorBytes(code: byte, p: seq<byte>)
    requires |p| <= MAX_ERROR_LEN
    ensures var e := Encoding(Error(code, p));
            |e| == 4 + |p| && e[0] == TERROR && e[1] == code && |p| == e[2] as int + 256 * e[3] as int && e[4..] == p
  {
    hide PutU16;
    var e := Encoding(Error(code, p));
    U16RoundTrip(|p|);
    var b := e[2..4];
    assert b == PutU16(|p|) && b[0] == e[2] && b[1] == e[3];
  }

  lemma PutStands(e: seq<byte>, at: nat, n: uint32)
    requires at + 4 <= |e| && e[at..at + 4] == PutU32(n)
    ensures StandsAt(e, at, n)
  {
    U32RoundTrip(n);
    var b := e[at..at + 4];
    assert b[0] == e[at] && b[1] == e[at + 1] && b[2] == e[at + 2] && b[3] == e[at + 3];
  }

  /** An ERROR frame with any message arrives with the first 4096 bytes of it. */
  lemma ErrorArrives(code: byte, p: seq<byte>, more: seq<byte>)
    ensures var msg := if |p| > 4096 then p[..4096] else p;
            Parse(Encoding(Error(code, p)) + more) == Parsed(Error(code, msg), 4 + |msg|)
  {
    var msg := if |p| > 4096 then p[..4096] else p;
    ParseEncoding(Error(code, msg), more);
  }

  /** A header that announces too much, and a type that does not exist, are
      malformed at once: no byte of a body is waited for. */
  lemma RefusedAtOnce(s: seq<byte>, n: int)
    requires s != []
    requires (s[0] == 17 && |s| >= 13 && StandsAt(s, 9, n) && n > 262144) ||
             (s[0] == 19 && |s| >= 9 && StandsAt(s, 5, n) && n > 4096) ||
             (s[0] == 127 && |s| >= 4 && n == s[2] as int + 256 * s[3] as int && n > 4096) ||
             s[0] !in {1, 2, 16, 17, 18, 19, 20, 32, 127}
    ensures Parse(s) == Malformed
  {
    if s[0] == 17 {
      assert s[9..13] == [s[9], s[10], s[11], s[12]];
    } else if s[0] == 19 {
      assert s[5..9] == [s[5], s[6], s[7], s[8]];
    } else if s[0] == 127 {
      assert s[2..4] == [s[2], s[3]];
    }
  }
}
