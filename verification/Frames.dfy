/** The wire frame codec (crates/auradb-protocol/src/frame.rs). */
module Frames {
  import opened Wrappers
  import opened BigEndian
  import opened Opcodes

  const MAGIC: seq<Byte> := [65, 85, 82, 65]
  const PROTOCOL_VERSION: Byte := 1
  const HEADER_LEN := 44
  const CHECKSUM_OFFSET := 40

  datatype Frame = Frame(version: Byte, opcode: Opcode, flags: U16, requestId: U128, txnId: U64, payload: seq<Byte>)

  datatype Error = BadMagic | BadVersion | UnknownOpcode | BadHeaderLength | UnsupportedCompression
                 | PayloadTooLong | HeaderCorrupt | PayloadCorrupt

  /** More bytes are needed, a frame and its length, or an error. */
  datatype Outcome = NeedMore | Got(frame: Frame, length: nat) | Bad(error: Error)

  /** The CRC-32 of some bytes. */
  type Checksum = seq<Byte> -> U32

  predicate HasTrailer(flags: U16) {
    flags % 2 == 1
  }

  const FLAG_PAYLOAD_CHECKSUM: bv16 := 0x0001

  /** The trailer is announced by the lowest bit of the flags. */
  lemma TrailerIsLowestBit(flags: U16)
    ensures HasTrailer(flags) <==> (flags as bv16) & FLAG_PAYLOAD_CHECKSUM != 0
  {
    var bits := flags as bv16;
    assert bits & 1 == bits % 2;
    assert (bits % 2) as int == flags % 2;
  }

  function TrailerLen(flags: U16): nat {
    if HasTrailer(flags) then 4 else 0
  }

  function EncodedLen(f: Frame): nat {
    HEADER_LEN + |f.payload| + TrailerLen(f.flags)
  }

  // ---- encoding ----

  /** A length as the 32-bit word that carries it. */
  function Word(n: nat): U32 {
    n % 0x1_0000_0000
  }

  function Preamble(f: Frame): seq<Byte> {
    MAGIC + [f.version, AsByte(f.opcode)] + Be(f.flags, 2) + Be(HEADER_LEN, 2) + [0, 0]
    + Be(Word(|f.payload|), 4) + Be(f.requestId, 16) + Be(f.txnId, 8)
  }

  function Header(crc: Checksum, f: Frame): seq<Byte> {
    Preamble(f) + Be(crc(Preamble(f)), 4)
  }

  function Trailer(crc: Checksum, flags: U16, payload: seq<Byte>): seq<Byte> {
    if HasTrailer(flags) then Be(crc(payload), 4) else []
  }

  function Encode(crc: Checksum, f: Frame): seq<Byte> {
    Header(crc, f) + f.payload + Trailer(crc, f.flags, f.payload)
  }

  lemma {:induction false} BeLength(n: nat, k: nat)
    ensures |Be(n, k)| == k
  {
    if k > 0 {
      BeLength(n / 256, k - 1);
    }
  }

  lemma PreambleShape(f: Frame)
    ensures var p := Preamble(f);
            && |p| == CHECKSUM_OFFSET && p[..4] == MAGIC && p[4] == f.version && p[5] == AsByte(f.opcode)
            && p[6..8] == Be(f.flags, 2) && p[8..10] == Be(HEADER_LEN, 2) && p[10] == 0 && p[11] == 0
            && p[12..16] == Be(Word(|f.payload|), 4) && p[16..32] == Be(f.requestId, 16) && p[32..40] == Be(f.txnId, 8)
  {
    hide Be, AsByte, Word;
    BeLength(f.flags, 2);
    BeLength(HEADER_LEN, 2);
    BeLength(Word(|f.payload|), 4);
    BeLength(f.requestId, 16);
    BeLength(f.txnId, 8);
  }

  lemma EncodeShape(crc: Checksum, f: Frame)
    ensures |Header(crc, f)| == HEADER_LEN && |Encode(crc, f)| == EncodedLen(f)
  {
    hide Be, Preamble;
    PreambleShape(f);
    BeLength(crc(Preamble(f)), 4);
    BeLength(crc(f.payload), 4);
  }

  /** `encode` */
  method EncodeFrame(crc: Checksum, f: Frame) returns (buf: seq<Byte>)
    ensures buf == Encode(crc, f) && |buf| == EncodedLen(f)
  {
    hide Be, AsByte;
    EncodeShape(crc, f);
    PreambleShape(f);
    buf := MAGIC;
    buf := buf + [f.version];
    buf := buf + [AsByte(f.opcode)];
    buf := buf + Be(f.flags, 2);
    buf := buf + Be(HEADER_LEN, 2);
    buf := buf + [0];
    buf := buf + [0];
    assert buf == MAGIC + [f.version, AsByte(f.opcode)] + Be(f.flags, 2) + Be(HEADER_LEN, 2) + [0, 0];
    buf := buf + Be(Word(|f.payload|), 4);
    buf := buf + Be(f.requestId, 16);
    buf := buf + Be(f.txnId, 8);
    assert buf == Preamble(f) && buf[..CHECKSUM_OFFSET] == buf;
    buf := buf + Be(crc(buf[..CHECKSUM_OFFSET]), 4);
    buf := buf + f.payload;
    if HasTrailer(f.flags) {
      buf := buf + Be(crc(f.payload), 4);
    }
    assert buf == Encode(crc, f);
  }

  // ---- decoding ----

  /** What the header alone decides: an error, or the length of the payload. */
  function CheckHeader(crc: Checksum, h: seq<Byte>, maxPayload: nat): Result<nat, Error>
    requires |h| == HEADER_LEN
  {
    if h[..4] != MAGIC then Err(BadMagic)
    else if h[4] == 0 || h[4] > PROTOCOL_VERSION then Err(BadVersion)
    else if FromByte(h[5]).None? then Err(UnknownOpcode)
    else if FromBe(h[8..10]) != HEADER_LEN then Err(BadHeaderLength)
    else if h[10] != 0 then Err(UnsupportedCompression)
    else if FromBe(h[12..16]) > maxPayload then Err(PayloadTooLong)
    else if FromBe(h[40..44]) != crc(h[..CHECKSUM_OFFSET]) then Err(HeaderCorrupt)
    else Ok(FromBe(h[12..16]))
  }

  function FlagsOf(h: seq<Byte>): U16
    requires |h| == HEADER_LEN
  {
    Widths();
    FromBeRoundTrip(h[6..8]);
    FromBe(h[6..8])
  }

  function FrameOf(h: seq<Byte>, payload: seq<Byte>): Frame
    requires |h| == HEADER_LEN && FromByte(h[5]).Some?
  {
    Widths();
    FromBeRoundTrip(h[16..32]);
    FromBeRoundTrip(h[32..40]);
    Frame(h[4], FromByte(h[5]).value, FlagsOf(h), FromBe(h[16..32]), FromBe(h[32..40]), payload)
  }

  /** `decode` */
  function Decode(crc: Checksum, buf: seq<Byte>, maxPayload: nat): Outcome {
    if |buf| < HEADER_LEN then NeedMore
    else
      var h := buf[..HEADER_LEN];
      match CheckHeader(crc, h, maxPayload)
      case Err(e) => Bad(e)
      case Ok(len) =>
        var end := HEADER_LEN + len;
        var total := end + TrailerLen(FlagsOf(h));
        if |buf| < total then NeedMore
        else
          var payload := buf[HEADER_LEN..end];
          if HasTrailer(FlagsOf(h)) && FromBe(buf[end..total]) != crc(payload) then Bad(PayloadCorrupt)
          else Got(FrameOf(h, payload), total)
  }

  /** A frame this build sends and a receiver with that limit takes. */
  ghost predicate Valid(f: Frame, maxPayload: nat) {
    f.version == PROTOCOL_VERSION && |f.payload| <= maxPayload && |f.payload| < 0x1_0000_0000
  }

  // ---- laws ----

  lemma HeaderDecodes(crc: Checksum, f: Frame, maxPayload: nat)
    requires Valid(f, maxPayload)
    ensures var h := Header(crc, f);
            && |h| == HEADER_LEN && CheckHeader(crc, h, maxPayload) == Ok(|f.payload|)
            && FlagsOf(h) == f.flags && FrameOf(h, f.payload) == f
  {
    hide Be, FromBe, Preamble, FromByte, AsByte, Pow256;
    var h, p := Header(crc, f), Preamble(f);
    EncodeShape(crc, f);
    PreambleShape(f);
    Widths();
    BeRoundTrip(f.flags, 2);
    BeRoundTrip(HEADER_LEN, 2);
    BeRoundTrip(Word(|f.payload|), 4);
    BeRoundTrip(f.requestId, 16);
    BeRoundTrip(f.txnId, 8);
    BeRoundTrip(crc(p), 4);
    OpcodeRoundTrip(f.opcode);
    assert h[..CHECKSUM_OFFSET] == p && h[40..44] == Be(crc(p), 4);
    assert h[..4] == p[..4] && h[6..8] == p[6..8] && h[8..10] == p[8..10] && h[12..16] == p[12..16];
    assert h[16..32] == p[16..32] && h[32..40] == p[32..40];
  }

  /** Decoding an encoded frame followed by anything gives that frame and its length. */
  lemma FrameRoundTrip(crc: Checksum, f: Frame, rest: seq<Byte>, maxPayload: nat)
    requires Valid(f, maxPayload)
    ensures Decode(crc, Encode(crc, f) + rest, maxPayload) == Got(f, EncodedLen(f))
  {
    hide Be, FromBe, Header, CheckHeader, FrameOf, FlagsOf, Pow256;
    EncodeShape(crc, f);
    HeaderDecodes(crc, f, maxPayload);
    var buf := Encode(crc, f) + rest;
    var end := HEADER_LEN + |f.payload|;
    assert buf[..HEADER_LEN] == Header(crc, f);
    assert buf[HEADER_LEN..end] == f.payload;
    if HasTrailer(f.flags) {
      Widths();
      BeRoundTrip(crc(f.payload), 4);
      assert buf[end..end + 4] == Be(crc(f.payload), 4);
    }
  }

  /** Every strict prefix of a frame asks for more. */
  lemma PrefixNeedsMore(crc: Checksum, f: Frame, n: nat, maxPayload: nat)
    requires Valid(f, maxPayload) && n < EncodedLen(f)
    ensures n <= |Encode(crc, f)| && Decode(crc, Encode(crc, f)[..n], maxPayload) == NeedMore
  {
    hide Be, FromBe, Header, CheckHeader, FrameOf, FlagsOf;
    EncodeShape(crc, f);
    HeaderDecodes(crc, f, maxPayload);
    if n >= HEADER_LEN {
      assert Encode(crc, f)[..n][..HEADER_LEN] == Header(crc, f);
    }
  }

  /** More bytes never change an answer already given. */
  lemma AnswersAreStable(crc: Checksum, buf: seq<Byte>, more: seq<Byte>, maxPayload: nat)
    requires !Decode(crc, buf, maxPayload).NeedMore?
    ensures Decode(crc, buf + more, maxPayload) == Decode(crc, buf, maxPayload)
  {
    hide FromBe, CheckHeader, FrameOf, FlagsOf;
    var h := buf[..HEADER_LEN];
    assert (buf + more)[..HEADER_LEN] == h;
    var c := CheckHeader(crc, h, maxPayload);
    if c.Ok? {
      var end := HEADER_LEN + c.value;
      var total := end + TrailerLen(FlagsOf(h));
      if |buf| >= total {
        assert (buf + more)[HEADER_LEN..end] == buf[HEADER_LEN..end];
        assert (buf + more)[end..total] == buf[end..total];
      }
    }
  }

  /** A header that passes is the header of its frame, the reserved byte aside. */
  lemma CheckedPreamble(crc: Checksum, h: seq<Byte>, payload: seq<Byte>, maxPayload: nat)
    requires |h| == HEADER_LEN && CheckHeader(crc, h, maxPayload) == Ok(|payload|)
    ensures |payload| < 0x1_0000_0000 && FromByte(h[5]).Some? && h[4] == PROTOCOL_VERSION
    ensures Preamble(FrameOf(h, payload)) == h[..CHECKSUM_OFFSET][11 := 0]
    ensures h[40..44] == Be(crc(h[..CHECKSUM_OFFSET]), 4)
  {
    hide Be, FromBe, FromByte, AsByte, Pow256, Preamble;
    Widths();
    FromBeRoundTrip(h[12..16]);
    var f := FrameOf(h, payload);
    HeaderWords(h);
    PreambleShape(f);
    assert f.version == h[4] && AsByte(f.opcode) == h[5];
    assert Be(Word(|payload|), 4) == h[12..16];
    SamePreamble(Preamble(f), h[..CHECKSUM_OFFSET][11 := 0]);
  }

  lemma HeaderWords(h: seq<Byte>)
    requires |h| == HEADER_LEN && FromByte(h[5]).Some?
    ensures var f := FrameOf(h, []);
            && Be(f.flags, 2) == h[6..8] && Be(f.requestId, 16) == h[16..32] && Be(f.txnId, 8) == h[32..40]
            && Be(FromBe(h[8..10]), 2) == h[8..10] && Be(FromBe(h[40..44]), 4) == h[40..44]
            && Be(FromBe(h[12..16]), 4) == h[12..16]
  {
    hide Be, FromBe, FromByte, Pow256;
    FromBeRoundTrip(h[6..8]);
    FromBeRoundTrip(h[8..10]);
    FromBeRoundTrip(h[12..16]);
    FromBeRoundTrip(h[16..32]);
    FromBeRoundTrip(h[32..40]);
    FromBeRoundTrip(h[40..44]);
  }

  /** Two preambles are equal when their fields are. */
  lemma SamePreamble(a: seq<Byte>, b: seq<Byte>)
    requires |a| == CHECKSUM_OFFSET && |b| == CHECKSUM_OFFSET
    requires a[..4] == b[..4] && a[4] == b[4] && a[5] == b[5] && a[6..8] == b[6..8] && a[8..10] == b[8..10]
    requires a[10] == b[10] && a[11] == b[11] && a[12..16] == b[12..16] && a[16..32] == b[16..32] && a[32..40] == b[32..40]
    ensures a == b
  {
    assert a == a[..4] + [a[4]] + [a[5]] + a[6..8] + a[8..10] + [a[10]] + [a[11]] + a[12..16] + a[16..32] + a[32..40];
    assert b == b[..4] + [b[4]] + [b[5]] + b[6..8] + b[8..10] + [b[10]] + [b[11]] + b[12..16] + b[16..32] + b[32..40];
  }

  /** Accepted bytes are the encoding of their frame exactly when the reserved byte is zero. */
  lemma AcceptedIsEncoded(crc: Checksum, buf: seq<Byte>, maxPayload: nat)
    requires Decode(crc, buf, maxPayload).Got?
    ensures var r := Decode(crc, buf, maxPayload);
            && Valid(r.frame, maxPayload) && r.length == EncodedLen(r.frame) <= |buf|
            && (buf[..r.length] == Encode(crc, r.frame) <==> buf[11] == 0)
  {
    hide Be, FromBe, FromByte, AsByte, Pow256, Preamble, CheckHeader, FrameOf;
    var r := Decode(crc, buf, maxPayload);
    var h := buf[..HEADER_LEN];
    var len := CheckHeader(crc, h, maxPayload).value;
    var end := HEADER_LEN + len;
    var payload := buf[HEADER_LEN..end];
    CheckedPreamble(crc, h, payload, maxPayload);
    PayloadBounded(crc, h, maxPayload);
    FrameFields(h, payload);
    EncodeShape(crc, r.frame);
    PreambleShape(r.frame);
    if buf[11] == 0 {
      assert h[..CHECKSUM_OFFSET][11 := 0] == h[..CHECKSUM_OFFSET];
      assert h == h[..CHECKSUM_OFFSET] + h[40..44];
      assert Header(crc, r.frame) == h;
      ThreeParts(buf, HEADER_LEN, end, r.length);
      if HasTrailer(r.frame.flags) {
        FromBeRoundTrip(buf[end..end + 4]);
      } else {
        assert buf[end..r.length] == [];
      }
      assert buf[end..r.length] == Trailer(crc, r.frame.flags, payload);
    } else {
      assert Encode(crc, r.frame)[11] == Preamble(r.frame)[11] == 0;
      assert buf[..r.length][11] == buf[11];
    }
  }

  lemma ThreeParts(buf: seq<Byte>, i: nat, j: nat, k: nat)
    requires i <= j <= k <= |buf|
    ensures buf[..k] == buf[..i] + buf[i..j] + buf[j..k]
  {
  }

  lemma PayloadBounded(crc: Checksum, h: seq<Byte>, maxPayload: nat)
    requires |h| == HEADER_LEN && CheckHeader(crc, h, maxPayload).Ok?
    ensures CheckHeader(crc, h, maxPayload).value <= maxPayload
  {
    hide FromBe, FromByte;
  }

  lemma FrameFields(h: seq<Byte>, payload: seq<Byte>)
    requires |h| == HEADER_LEN && FromByte(h[5]).Some?
    ensures var f := FrameOf(h, payload); f.flags == FlagsOf(h) && f.payload == payload && f.version == h[4]
  {
    hide FromBe, FromByte;
  }

  // ---- streams ----

  function EncodeAll(crc: Checksum, frames: seq<Frame>): seq<Byte> {
    if frames == [] then [] else Encode(crc, frames[0]) + EncodeAll(crc, frames[1..])
  }

  /** The frames at the front of a buffer, and where decoding stopped. */
  datatype Stream = Stream(frames: seq<Frame>, left: seq<Byte>, error: Option<Error>)

  function DecodeAll(crc: Checksum, buf: seq<Byte>, maxPayload: nat): Stream
    decreases |buf|
  {
    match Decode(crc, buf, maxPayload)
    case NeedMore => Stream([], buf, None)
    case Bad(e) => Stream([], buf, Some(e))
    case Got(f, n) =>
      var rest := DecodeAll(crc, buf[n..], maxPayload);
      rest.(frames := [f] + rest.frames)
  }

  /** Concatenated encodings decode to the same frames. */
  lemma {:induction false} StreamRoundTrip(crc: Checksum, frames: seq<Frame>, maxPayload: nat)
    requires forall f :: f in frames ==> Valid(f, maxPayload)
    ensures DecodeAll(crc, EncodeAll(crc, frames), maxPayload) == Stream(frames, [], None)
  {
    hide Encode, Decode, Valid;
    if frames == [] {
      assert Decode(crc, [], maxPayload) == NeedMore by { NothingNeedsMore(crc, maxPayload); }
    } else {
      var rest := EncodeAll(crc, frames[1..]);
      FrameRoundTrip(crc, frames[0], rest, maxPayload);
      EncodeShape(crc, frames[0]);
      StreamRoundTrip(crc, frames[1..], maxPayload);
      assert (Encode(crc, frames[0]) + rest)[EncodedLen(frames[0])..] == rest;
      assert frames == [frames[0]] + frames[1..];
    }
  }

  lemma NothingNeedsMore(crc: Checksum, maxPayload: nat)
    ensures Decode(crc, [], maxPayload) == NeedMore
  {
  }

  /** However the bytes arrive, decoding what is there and resuming on the remainder gives what
      decoding them all at once gives. */
  lemma {:induction false} ArrivalDoesNotMatter(crc: Checksum, buf: seq<Byte>, more: seq<Byte>, maxPayload: nat)
    ensures var first := DecodeAll(crc, buf, maxPayload);
            var whole := DecodeAll(crc, buf + more, maxPayload);
            if first.error.Some? then whole.frames == first.frames && whole.error == first.error
            else
              var second := DecodeAll(crc, first.left + more, maxPayload);
              whole.frames == first.frames + second.frames && whole.left == second.left && whole.error == second.error
    decreases |buf|
  {
    hide Decode;
    var d := Decode(crc, buf, maxPayload);
    if !d.NeedMore? {
      AnswersAreStable(crc, buf, more, maxPayload);
    }
    if d.Got? {
      GotSome(crc, buf, maxPayload);
      ArrivalDoesNotMatter(crc, buf[d.length..], more, maxPayload);
      assert (buf + more)[d.length..] == buf[d.length..] + more;
    }
  }

  lemma GotSome(crc: Checksum, buf: seq<Byte>, maxPayload: nat)
    requires Decode(crc, buf, maxPayload).Got?
    ensures HEADER_LEN <= Decode(crc, buf, maxPayload).length <= |buf|
  {
  }
}
