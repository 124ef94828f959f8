/** The opaque continuation token of ranked paging (crates/auradb-query/src/cursor.rs):
    37 bytes, hex-encoded. */
module CursorToken {
  import opened Wrappers
  import opened BigEndian

  const CURSOR_VERSION: Byte := 1
  const CURSOR_BYTES := 37

  /** The continuation state; the score travels as its bit pattern. */
  datatype State = State(rank: U64, id: U128, score: U32, fingerprint: U64)

  datatype Error = InvalidToken | UnsupportedVersion(version: Byte) | WrongQuery | EmptyPage

  // ---- hex ----

  function Digit(d: int): char
    requires 0 <= d < 16
  {
    if d < 10 then '0' + d as char else 'a' + (d - 10) as char
  }

  /** `to_digit(16)`, which takes either case. */
  function DigitValue(c: char): Option<int> {
    if '0' <= c <= '9' then Some((c - '0') as int)
    else if 'a' <= c <= 'f' then Some(10 + (c - 'a') as int)
    else if 'A' <= c <= 'F' then Some(10 + (c - 'A') as int)
    else None
  }

  function Lower(c: char): char {
    if 'A' <= c <= 'F' then 'a' + (c - 'A') else c
  }

  function Lowered(s: string): string {
    seq(|s|, i requires 0 <= i < |s| => Lower(s[i]))
  }

  lemma DigitRoundTrip(d: int)
    requires 0 <= d < 16
    ensures DigitValue(Digit(d)) == Some(d) && Lower(Digit(d)) == Digit(d)
  {
  }

  lemma DigitReads(c: char)
    requires DigitValue(c).Some?
    ensures 0 <= DigitValue(c).value < 16 && Digit(DigitValue(c).value) == Lower(c)
  {
  }

  function Hex(b: seq<Byte>): string {
    if b == [] then "" else Hex(b[..|b| - 1]) + [Digit(b[|b| - 1] / 16), Digit(b[|b| - 1] % 16)]
  }

  ghost predicate IsHex(s: string) {
    forall i :: 0 <= i < |s| ==> DigitValue(s[i]).Some?
  }

  /** Two hex digits a byte. */
  ghost function Bytes(s: string): seq<Byte>
    requires IsHex(s)
  {
    if |s| < 2 then []
    else
      var hi, lo := s[|s| - 2], s[|s| - 1];
      DigitReads(hi);
      DigitReads(lo);
      Bytes(s[..|s| - 2]) + [16 * DigitValue(hi).value + DigitValue(lo).value]
  }

  lemma {:induction false} HexRoundTrip(b: seq<Byte>)
    ensures |Hex(b)| == 2 * |b| && IsHex(Hex(b)) && Bytes(Hex(b)) == b
  {
    hide Digit, DigitValue, Lower;
    if b != [] {
      var last := b[|b| - 1];
      HexRoundTrip(b[..|b| - 1]);
      DigitRoundTrip(last / 16);
      DigitRoundTrip(last % 16);
      assert Hex(b)[..|Hex(b)| - 2] == Hex(b[..|b| - 1]);
      assert b == b[..|b| - 1] + [last];
    }
  }

  lemma ByteReads(hi: char, lo: char, b: Byte)
    requires DigitValue(hi).Some? && DigitValue(lo).Some? && b == 16 * DigitValue(hi).value + DigitValue(lo).value
    ensures Digit(b / 16) == Lower(hi) && Digit(b % 16) == Lower(lo)
  {
    hide Digit, Lower, DigitValue;
    DigitReads(hi);
    DigitReads(lo);
    assert b / 16 == DigitValue(hi).value && b % 16 == DigitValue(lo).value;
  }

  lemma {:induction false} BytesRoundTrip(s: string)
    requires IsHex(s) && |s| % 2 == 0
    ensures |Bytes(s)| == |s| / 2 && Hex(Bytes(s)) == Lowered(s)
  {
    hide Digit, Lower, DigitValue;
    if s != [] {
      var hi, lo := s[|s| - 2], s[|s| - 1];
      var front := s[..|s| - 2];
      BytesRoundTrip(front);
      DigitReads(hi);
      DigitReads(lo);
      var b: Byte := 16 * DigitValue(hi).value + DigitValue(lo).value;
      ByteReads(hi, lo, b);
      assert Bytes(s) == Bytes(front) + [b];
      assert Bytes(s)[..|Bytes(s)| - 1] == Bytes(front);
      assert Lowered(s) == Lowered(front) + [Lower(hi), Lower(lo)];
    }
  }

  // ---- the token ----

  /** The fixed layout: version, rank, id, score, fingerprint. */
  function Layout(c: State): seq<Byte> {
    [CURSOR_VERSION] + Be(c.rank, 8) + Be(c.id, 16) + Be(c.score, 4) + Be(c.fingerprint, 8)
  }

  function Encode(c: State): string {
    Hex(Layout(c))
  }

  lemma LayoutShape(c: State)
    ensures var b := Layout(c);
            && |b| == CURSOR_BYTES && b[0] == CURSOR_VERSION
            && b[1..9] == Be(c.rank, 8) && b[9..25] == Be(c.id, 16) && b[25..29] == Be(c.score, 4) && b[29..37] == Be(c.fingerprint, 8)
  {
    hide Be, Pow256;
    Widths();
    BeRoundTrip(c.rank, 8);
    BeRoundTrip(c.id, 16);
    BeRoundTrip(c.score, 4);
    BeRoundTrip(c.fingerprint, 8);
  }

  /** `encode_token` */
  method EncodeToken(c: State) returns (token: string)
    ensures token == Encode(c)
  {
    hide Be;
    LayoutShape(c);
    var buf := [CURSOR_VERSION] + Be(c.rank, 8) + Be(c.id, 16) + Be(c.score, 4) + Be(c.fingerprint, 8);
    token := "";
    var i := 0;
    while i < |buf|
      invariant 0 <= i <= |buf| && token == Hex(buf[..i])
    {
      assert buf[..i + 1][..i] == buf[..i];
      token := token + [Digit(buf[i] / 16)];
      token := token + [Digit(buf[i] % 16)];
      i := i + 1;
    }
    assert buf[..i] == buf;
  }

  /** The state a buffer of the right length and version spells. */
  function Unpack(b: seq<Byte>): State
    requires |b| == CURSOR_BYTES
  {
    Widths();
    FromBeRoundTrip(b[1..9]);
    FromBeRoundTrip(b[9..25]);
    FromBeRoundTrip(b[25..29]);
    FromBeRoundTrip(b[29..37]);
    State(FromBe(b[1..9]), FromBe(b[9..25]), FromBe(b[25..29]), FromBe(b[29..37]))
  }

  lemma UnpackLayout(c: State)
    ensures |Layout(c)| == CURSOR_BYTES && Unpack(Layout(c)) == c
  {
    hide Be, FromBe, Layout, Pow256;
    Widths();
    LayoutShape(c);
    BeRoundTrip(c.rank, 8);
    BeRoundTrip(c.id, 16);
    BeRoundTrip(c.score, 4);
    BeRoundTrip(c.fingerprint, 8);
  }

  lemma LayoutUnpack(b: seq<Byte>)
    requires |b| == CURSOR_BYTES && b[0] == CURSOR_VERSION
    ensures Layout(Unpack(b)) == b
  {
    hide Be, FromBe, Pow256;
    FromBeRoundTrip(b[1..9]);
    FromBeRoundTrip(b[9..25]);
    FromBeRoundTrip(b[25..29]);
    FromBeRoundTrip(b[29..37]);
    assert b == [b[0]] + b[1..9] + b[9..25] + b[25..29] + b[29..37];
  }

  /** What a token means: an error unless it is 74 hex digits of the right version. */
  ghost function Decode(token: string): Result<State, Error> {
    if |token| != 2 * CURSOR_BYTES || !IsHex(token) then Err(InvalidToken)
    else
      var b := Bytes(token);
      BytesRoundTrip(token);
      if b[0] != CURSOR_VERSION then Err(UnsupportedVersion(b[0])) else Ok(Unpack(b))
  }

  /** `decode_token` */
  method DecodeToken(token: string) returns (r: Result<State, Error>)
    ensures r == Decode(token)
  {
    hide Unpack;
    if |token| != 2 * CURSOR_BYTES {
      return Err(InvalidToken);
    }
    var buf: seq<Byte> := [];
    var i := 0;
    while i < CURSOR_BYTES
      invariant 0 <= i <= CURSOR_BYTES && |buf| == i
      invariant IsHex(token[..2 * i]) && Bytes(token[..2 * i]) == buf
    {
      var hi, lo := DigitValue(token[2 * i]), DigitValue(token[2 * i + 1]);
      if hi.None? || lo.None? {
        return Err(InvalidToken);
      }
      DigitReads(token[2 * i]);
      DigitReads(token[2 * i + 1]);
      assert token[..2 * (i + 1)][..2 * i] == token[..2 * i];
      buf := buf + [16 * hi.value + lo.value];
      i := i + 1;
    }
    assert token[..2 * i] == token;
    if buf[0] != CURSOR_VERSION {
      return Err(UnsupportedVersion(buf[0]));
    }
    r := Ok(Unpack(buf));
  }

  /** Decoding inverts encoding. */
  lemma TokenRoundTrip(c: State)
    ensures |Encode(c)| == 74 && Decode(Encode(c)) == Ok(c)
  {
    hide Layout, Unpack, Hex, Bytes;
    LayoutShape(c);
    UnpackLayout(c);
    HexRoundTrip(Layout(c));
  }

  /** Every accepted token is the encoding of its state, up to letter case. */
  lemma AcceptedIsEncoded(token: string)
    requires Decode(token).Ok?
    ensures Encode(Decode(token).value) == Lowered(token)
  {
    hide Layout, Unpack, Hex, Bytes, Lowered;
    BytesRoundTrip(token);
    LayoutUnpack(Bytes(token));
  }
}
