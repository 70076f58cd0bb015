/**
 * The wire format of the gateway (internal/comet/protocol.go): 4 bytes of body length, version, flag, 2 bytes
 * of command, then the body. The body codec is a parameter; `Inverse` says what is asked of it.
 */
module Frame {
  import opened Arith
  import opened Common

  type byte = x: int | 0 <= x < 256

  const HEADER_SIZE := 8
  const VERSION: byte := 1
  const MAX_BODY := 65536
  const CMD_UNKNOWN := 0

  datatype Error =
    | CmdUnknown | MarshalFailed | BodyTooLarge | ShortHeader | BadVersion | BadFlag | ShortBody | UnmarshalFailed

  datatype Result<T> = Ok(value: T) | Err(error: Error)

  /** proto.Marshal, proto.Unmarshal, the Cmd field, and the frame before anything is unmarshalled into it. */
  datatype Codec<!F> = Codec(marshal: F -> Option<seq<byte>>, unmarshal: seq<byte> -> Option<F>, cmd: F -> int, zero: F)

  ghost predicate Inverse<F(!new)>(c: Codec<F>) {
    && (forall f :: c.marshal(f).Some? ==> c.unmarshal(c.marshal(f).value) == Some(f))
    && c.unmarshal([]) == Some(c.zero) && c.cmd(c.zero) == CMD_UNKNOWN
  }

  // ---- Encoding ----

  function Big32(n: int): seq<byte> {
    [n / 0x100_0000 % 256, n / 0x1_0000 % 256, n / 0x100 % 256, n % 256]
  }

  /** The conversion to uint16 keeps the low 16 bits. */
  function Big16(n: int): seq<byte> {
    [n % 0x1_0000 / 0x100, n % 0x100]
  }

  lemma Small16(n: nat)
    requires n < 0x1_0000
    ensures Big16(n) == [n / 0x100, n % 0x100]
  {
    ModOfSmall(n, 0x1_0000);
  }

  /** The top byte of a number below 2^32 needs no reduction. */
  lemma TopByte(n: nat)
    requires n < 0x1_0000_0000
    ensures n / 0x100_0000 < 256 && n / 0x100_0000 % 256 == n / 0x100_0000
  {
    DivBounds(n, 0x100_0000);
    ModOfSmall(n / 0x100_0000, 256);
  }

  lemma Small32(n: nat)
    requires n < 0x1_0000_0000
    ensures n / 0x100_0000 < 256
    ensures Big32(n) == [n / 0x100_0000, n / 0x1_0000 % 256, n / 0x100 % 256, n % 256]
  {
    TopByte(n);
  }

  /** Only the low 16 bits matter. */
  lemma Low16(n: int)
    ensures Big16(n % 0x1_0000) == Big16(n)
  {
    ModOfSmall(n % 0x1_0000, 0x1_0000);
    ModOfMod(n, 0x1_0000, 0x100);
  }

  function Wire(body: seq<byte>, cmd: int): seq<byte> {
    Big32(|body|) + [VERSION, 0] + Big16(cmd) + body
  }

  function Encode<F>(c: Codec<F>, f: F): Result<seq<byte>> {
    if c.cmd(f) == CMD_UNKNOWN then Err(CmdUnknown)
    else if c.marshal(f).None? then Err(MarshalFailed)
    else if |c.marshal(f).value| > MAX_BODY then Err(BodyTooLarge)
    else Ok(Wire(c.marshal(f).value, c.cmd(f)))
  }

  // ---- Parsing ----

  function FromBig32(b: seq<byte>): nat
    requires |b| == 4
  {
    b[0] as int * 0x100_0000 + b[1] as int * 0x1_0000 + b[2] as int * 0x100 + b[3] as int
  }

  lemma BigRoundTrip(n: nat)
    requires n < 0x1_0000_0000
    ensures FromBig32(Big32(n)) == n
  {
    TopByte(n);
    DivMod(n, 0x100);
    NestedDiv(n, 0x100, 0x100);
    DivMod(n / 0x100, 0x100);
    NestedDiv(n, 0x1_0000, 0x100);
    DivMod(n / 0x1_0000, 0x100);
  }

  function Decode<F>(c: Codec<F>, body: seq<byte>): Result<F> {
    var f := if |body| > 0 then c.unmarshal(body) else Some(c.zero);
    if f.None? then Err(UnmarshalFailed)
    else if c.cmd(f.value) == CMD_UNKNOWN then Err(CmdUnknown)
    else Ok(f.value)
  }

  /** What is wrong with a header; the checks come in this order. */
  function HeaderError(header: seq<byte>): Option<Error>
    requires |header| == HEADER_SIZE
  {
    if header[4] != VERSION then Some(BadVersion)
    else if header[5] != 0 then Some(BadFlag)
    else if FromBig32(header[..4]) > MAX_BODY then Some(BodyTooLarge)
    else None
  }

  /** One frame off the front of `rest`, and what stays on the stream. */
  function Parse<F>(c: Codec<F>, rest: seq<byte>): (Result<F>, seq<byte>) {
    if |rest| < HEADER_SIZE then (Err(ShortHeader), rest)
    else
      var wrong := HeaderError(rest[..HEADER_SIZE]);
      if wrong.Some? then (Err(wrong.value), rest)
      else
        var end := HEADER_SIZE + FromBig32(rest[..HEADER_SIZE][..4]);
        if |rest| < end then (Err(ShortBody), rest)
        else (Decode(c, rest[HEADER_SIZE..end]), rest[end..])
  }

  lemma WireHeader(body: seq<byte>, cmd: int, tail: seq<byte>)
    requires |body| <= MAX_BODY
    ensures var w := Wire(body, cmd) + tail;
      |w| == HEADER_SIZE + |body| + |tail| && w[4] == VERSION && w[5] == 0 && FromBig32(w[..4]) == |body|
    ensures var w := Wire(body, cmd) + tail;
      w[HEADER_SIZE..HEADER_SIZE + |body|] == body && w[HEADER_SIZE + |body|..] == tail
  {
    BigRoundTrip(|body|);
    assert (Wire(body, cmd) + tail)[..4] == Big32(|body|);
  }

  /** A frame that can be encoded is read back exactly, and only its own bytes are consumed. */
  lemma RoundTrip<F(!new)>(c: Codec<F>, f: F, tail: seq<byte>)
    requires Inverse(c) && Encode(c, f).Ok?
    ensures Parse(c, Encode(c, f).value + tail) == (Ok(f), tail)
  {
    var body := c.marshal(f).value;
    var w := Encode(c, f).value + tail;
    WireHeader(body, c.cmd(f), tail);
    assert w[..HEADER_SIZE][..4] == w[..4];
    assert body != [];
  }

  /** A frame of which anything is missing is not delivered, and nothing of it is consumed. */
  lemma Truncated<F(!new)>(c: Codec<F>, f: F, cut: nat)
    requires Encode(c, f).Ok? && cut < |Encode(c, f).value|
    ensures Parse(c, Encode(c, f).value[..cut]) ==
      (Err(if cut < HEADER_SIZE then ShortHeader else ShortBody), Encode(c, f).value[..cut])
  {
    var body := c.marshal(f).value;
    var w := Encode(c, f).value;
    WireHeader(body, c.cmd(f), []);
    assert w + [] == w;
    if cut >= HEADER_SIZE {
      assert w[..cut][..HEADER_SIZE] == w[..HEADER_SIZE];
      assert w[..HEADER_SIZE][..4] == w[..4];
    }
  }

  /** The command in the header is only a hint: bytes 6 and 7 never matter to the reader. */
  lemma HeaderCmdIgnored<F(!new)>(c: Codec<F>, rest: seq<byte>, hint: int)
    requires |rest| >= HEADER_SIZE
    ensures var other := rest[..6] + Big16(hint) + rest[HEADER_SIZE..];
      Parse(c, other).0 == Parse(c, rest).0 &&
      Parse(c, other).1 == if Parse(c, rest).1 == rest then other else Parse(c, rest).1
  {
    var other := rest[..6] + Big16(hint) + rest[HEADER_SIZE..];
    assert other[..HEADER_SIZE][..4] == rest[..HEADER_SIZE][..4];
    assert other[HEADER_SIZE..] == rest[HEADER_SIZE..];
    var end := HEADER_SIZE + FromBig32(rest[..HEADER_SIZE][..4]);
    if |rest| >= end {
      assert other[HEADER_SIZE..end] == other[HEADER_SIZE..][..end - HEADER_SIZE];
      assert rest[HEADER_SIZE..end] == rest[HEADER_SIZE..][..end - HEADER_SIZE];
      assert other[end..] == other[HEADER_SIZE..][end - HEADER_SIZE..];
      assert rest[end..] == rest[HEADER_SIZE..][end - HEADER_SIZE..];
    }
  }

  // ---- The bytes, one by one ----

  /** Bytes read as a number, the most significant first. */
  function Number(bytes: seq<byte>): nat {
    if bytes == [] then 0 else Number(bytes[..|bytes| - 1]) * 256 + bytes[|bytes| - 1]
  }

  lemma Number2(b: seq<byte>)
    requires |b| == 2
    ensures Number(b) == (b[0] as int) * 256 + b[1]
  {
    assert b[..1][..0] == [];
    assert Number(b[..1]) == b[0];
  }

  lemma Number4(b: seq<byte>)
    requires |b| == 4
    ensures Number(b) == FromBig32(b)
  {
    Number2(b[..2]);
    assert b[..3][..2] == b[..2];
    assert Number(b[..3]) == Number(b[..2]) * 256 + b[2];
  }

  lemma Big16Value(n: int)
    ensures Number(Big16(n)) == n % 0x1_0000
  {
    Number2(Big16(n));
    DivMod(n % 0x1_0000, 0x100);
    ModOfMod(n, 0x1_0000, 0x100);
  }

  /** A frame on the wire: the body's length, most significant byte first, version 1, flag 0, the command, the body. */
  lemma WireBytes(body: seq<byte>, cmd: int)
    requires |body| <= 65536
    ensures var w := Wire(body, cmd);
      && |w| == 8 + |body| && w[8..] == body && w[4] == 1 && w[5] == 0
      && Number(w[..4]) == |body| && Number(w[6..8]) == cmd % 65536
  {
    BigRoundTrip(|body|);
    Number4(Big32(|body|));
    Big16Value(cmd);
    assert Wire(body, cmd)[..4] == Big32(|body|) && Wire(body, cmd)[6..8] == Big16(cmd);
  }

  /** Exactly which frames are refused, and why. */
  lemma EncodeFailsIff<F(!new)>(c: Codec<F>, f: F)
    ensures Encode(c, f) == Err(CmdUnknown) <==> c.cmd(f) == 0
    ensures Encode(c, f) == Err(MarshalFailed) <==> c.cmd(f) != 0 && c.marshal(f).None?
    ensures Encode(c, f) == Err(BodyTooLarge) <==>
              c.cmd(f) != 0 && c.marshal(f).Some? && |c.marshal(f).value| > 65536
    ensures Encode(c, f).Ok? <==> c.cmd(f) != 0 && c.marshal(f).Some? && |c.marshal(f).value| <= 65536
  {
  }

  /** A header is refused for its version first, then for its flag, then for a length above 65536. */
  lemma HeaderRefused<F(!new)>(c: Codec<F>, rest: seq<byte>)
    requires |rest| >= 8
    ensures Parse(c, rest).0 == Err(BadVersion) <==> rest[4] != 1
    ensures Parse(c, rest).0 == Err(BadFlag) <==> rest[4] == 1 && rest[5] != 0
    ensures Parse(c, rest).0 == Err(BodyTooLarge) <==>
              rest[4] == 1 && rest[5] == 0 && Number(rest[..4]) > 65536
    ensures rest[4] != 1 || rest[5] != 0 ==> Parse(c, rest).1 == rest
  {
    Number4(rest[..4]);
    assert rest[..HEADER_SIZE][..4] == rest[..4];
  }

  /** Exactly when a frame is read, and what stays on the stream. */
  lemma ParsesIff<F(!new)>(c: Codec<F>, rest: seq<byte>, f: F)
    ensures Parse(c, rest).0 == Ok(f) <==>
              && |rest| >= 8 && rest[4] == 1 && rest[5] == 0 && Number(rest[..4]) <= 65536
              && |rest| >= 8 + Number(rest[..4]) && c.cmd(f) != 0
              && if Number(rest[..4]) == 0 then f == c.zero
                 else c.unmarshal(rest[8..8 + Number(rest[..4])]) == Some(f)
    ensures Parse(c, rest).0 == Ok(f) ==> Parse(c, rest).1 == rest[8 + Number(rest[..4])..]
  {
    if |rest| >= 8 {
      Number4(rest[..4]);
      assert rest[..HEADER_SIZE][..4] == rest[..4];
    }
  }

  // ---- A whole connection ----

  lemma ParseShrinks<F(!new)>(c: Codec<F>, rest: seq<byte>)
    ensures Parse(c, rest).0.Ok? ==> |Parse(c, rest).1| < |rest|
  {
  }

  /** The read loop: frames until the first error. */
  function ParseAll<F(!new)>(c: Codec<F>, rest: seq<byte>): (seq<F>, Error)
    decreases |rest|
  {
    ParseShrinks(c, rest);
    match Parse(c, rest)
    case (Ok(f), tail) => var (fs, e) := ParseAll(c, tail); ([f] + fs, e)
    case (Err(e), _) => ([], e)
  }

  ghost predicate Encodable<F(!new)>(c: Codec<F>, frames: seq<F>) {
    forall i | 0 <= i < |frames| :: Encode(c, frames[i]).Ok?
  }

  ghost function WireAll<F(!new)>(c: Codec<F>, frames: seq<F>): seq<byte>
    requires Encodable(c, frames)
  {
    if frames == [] then [] else Encode(c, frames[0]).value + WireAll(c, frames[1..])
  }

  function Prepend<F>(frames: seq<F>, p: (seq<F>, Error)): (seq<F>, Error) {
    (frames + p.0, p.1)
  }

  lemma PrependNothing<F>(frames: seq<F>, p: (seq<F>, Error))
    requires frames == []
    ensures Prepend(frames, p) == p
  {
    assert frames + p.0 == p.0;
  }

  lemma PrependTwice<F>(f: F, frames: seq<F>, p: (seq<F>, Error))
    ensures Prepend([f], Prepend(frames, p)) == Prepend([f] + frames, p)
  {
    assert [f] + (frames + p.0) == [f] + frames + p.0;
  }

  lemma OneFrame<F(!new)>(c: Codec<F>, f: F, rest: seq<byte>)
    requires Inverse(c) && Encode(c, f).Ok?
    ensures ParseAll(c, Encode(c, f).value + rest) == Prepend([f], ParseAll(c, rest))
  {
    RoundTrip(c, f, rest);
  }

  lemma NextFrame<F(!new)>(c: Codec<F>, f: F, rest: seq<byte>, frames: seq<F>, p: (seq<F>, Error))
    requires Inverse(c) && Encode(c, f).Ok? && ParseAll(c, rest) == Prepend(frames, p)
    ensures ParseAll(c, Encode(c, f).value + rest) == Prepend([f] + frames, p)
  {
    OneFrame(c, f, rest);
    PrependTwice(f, frames, p);
  }

  /** All frames come back in order; what follows them is parsed as if they had not been there. */
  lemma {:induction false} StreamRoundTrip<F(!new)>(c: Codec<F>, frames: seq<F>, tail: seq<byte>)
    requires Inverse(c) && Encodable(c, frames)
    ensures ParseAll(c, WireAll(c, frames) + tail) == Prepend(frames, ParseAll(c, tail))
  {
    if frames == [] {
      assert WireAll(c, frames) + tail == tail;
      PrependNothing(frames, ParseAll(c, tail));
    } else {
      var w, rest := Encode(c, frames[0]).value, WireAll(c, frames[1..]);
      StreamRoundTrip(c, frames[1..], tail);
      NextFrame(c, frames[0], rest + tail, frames[1..], ParseAll(c, tail));
      assert w + (rest + tail) == WireAll(c, frames) + tail;
      assert [frames[0]] + frames[1..] == frames;
    }
  }

  /** A stream cut inside a frame delivers exactly the whole frames before the cut. */
  lemma StreamCut<F(!new)>(c: Codec<F>, frames: seq<F>, last: F, cut: nat)
    requires Inverse(c) && Encodable(c, frames) && Encode(c, last).Ok? && cut < |Encode(c, last).value|
    ensures ParseAll(c, WireAll(c, frames) + Encode(c, last).value[..cut]).0 == frames
  {
    StreamRoundTrip(c, frames, Encode(c, last).value[..cut]);
    Truncated(c, last, cut);
  }
}
