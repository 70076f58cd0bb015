/**
 * The frame parser over a buffered stream (internal/comet/protocol.go, internal/comet/stream_windows.go).
 * A connection hands out its bytes in any pieces; the parser sees only their concatenation.
 */
module FrameStream {
  import opened Common
  import opened Frame

  function Concat(chunks: seq<seq<byte>>): seq<byte> {
    if chunks == [] then [] else chunks[0] + Concat(chunks[1..])
  }

  /**
   * What has been sent but not read, cut into arbitrary pieces (empty ones too). `eager`: the error that ends
   * the connection may come together with the last bytes, as io.Reader allows.
   */
  class Conn {
    var chunks: seq<seq<byte>>
    const eager: bool

    constructor (chunks: seq<seq<byte>>, eager: bool)
      ensures this.chunks == chunks
    {
      this.chunks, this.eager := chunks, eager;
    }

    ghost function Unread(): seq<byte>
      reads this
    {
      Concat(chunks)
    }

    method Read(max: nat) returns (data: seq<byte>, ok: bool)
      requires max > 0
      modifies this
      ensures old(Unread()) == data + Unread() && |data| <= max
      ensures !ok ==> chunks == []
      ensures ok ==> |chunks| + |Unread()| < old(|chunks| + |Unread()|)
    {
      if chunks == [] { return [], false; }
      if |chunks[0]| <= max {
        data, chunks := chunks[0], chunks[1..];
        ok := !(eager && chunks == []);
      } else {
        data, ok := chunks[0][..max], true;
        ghost var tail := Concat(chunks[1..]);
        assert chunks[0] + tail == data + (chunks[0][max..] + tail);
        chunks := [chunks[0][max..]] + chunks[1..];
      }
    }

    /** io.ReadAtLeast: reads until `min` bytes are there or the connection fails. */
    method ReadAtLeast(size: nat, min: nat) returns (data: seq<byte>, ok: bool)
      requires 0 < min <= size
      modifies this
      ensures old(Unread()) == data + Unread() && |data| <= size
      ensures ok == (|data| >= min) && (!ok ==> Unread() == [])
    {
      data, ok := [], true;
      ghost var all := Unread();
      while |data| < min && ok
        invariant all == data + Unread() && |data| <= size && (!ok ==> chunks == [])
        decreases if ok then 1 + |chunks| + |Unread()| else 0
      {
        var more: seq<byte>;
        more, ok := Read(size - |data|);
        Regroup(data, more, Unread());
        data := data + more;
      }
      ok := |data| >= min;
    }
  }

  lemma Regroup(a: seq<byte>, b: seq<byte>, c: seq<byte>)
    ensures a + (b + c) == a + b + c
  {
  }

  class NetStream {
    const conn: Conn
    var buf: seq<byte>

    constructor (conn: Conn)
      ensures this.conn == conn && buf == []
    {
      this.conn, buf := conn, [];
    }

    /** The rest of the stream: buffered bytes, then unread ones. */
    ghost function Rest(): seq<byte>
      reads this, conn
    {
      buf + conn.Unread()
    }

    method Peek(n: nat) returns (b: Option<seq<byte>>)
      modifies this, conn
      ensures Rest() == old(Rest())
      ensures b == if n <= |Rest()| then Some(Rest()[..n]) else None
      ensures b.Some? ==> n <= |buf|
    {
      if |buf| >= n {
        assert Rest()[..n] == buf[..n];
        return Some(buf[..n]);
      }
      var need := n - |buf|;
      ghost var before := buf;
      var tmp, ok := conn.ReadAtLeast(need + 4096, need);
      buf := buf + tmp;
      assert before + (tmp + conn.Unread()) == Rest();
      if !ok && |buf| < n { return None; }
      assert Rest()[..n] == buf[..n];
      return Some(buf[..n]);
    }

    method Skip(n: nat) returns (ok: bool)
      modifies this
      ensures ok == (n <= old(|buf|))
      ensures Rest() == if ok then old(Rest())[n..] else old(Rest())
    {
      if n > |buf| { return false; }
      buf := buf[n..];
      return true;
    }
  }

  method PutUint32(buf: array<byte>, at: nat, v: nat)
    requires at + 4 <= buf.Length && v < 0x1_0000_0000
    modifies buf
    ensures buf[at..at + 4] == Big32(v)
    ensures forall i | 0 <= i < buf.Length && !(at <= i < at + 4) :: buf[i] == old(buf[i])
  {
    Small32(v);
    buf[at], buf[at + 1], buf[at + 2], buf[at + 3] := v / 0x100_0000, v / 0x1_0000 % 256, v / 0x100 % 256, v % 256;
  }

  method PutUint16(buf: array<byte>, at: nat, v: nat)
    requires at + 2 <= buf.Length && v < 0x1_0000
    modifies buf
    ensures buf[at..at + 2] == Big16(v)
    ensures forall i | 0 <= i < buf.Length && !(at <= i < at + 2) :: buf[i] == old(buf[i])
  {
    Small16(v);
    buf[at], buf[at + 1] := v / 0x100, v % 0x100;
  }

  method PutHeader(buf: array<byte>, bodyLen: nat, cmd: int)
    requires HEADER_SIZE <= buf.Length && bodyLen <= MAX_BODY
    modifies buf
    ensures buf[..HEADER_SIZE] == Big32(bodyLen) + [VERSION, 0] + Big16(cmd)
  {
    PutUint32(buf, 0, bodyLen);
    buf[4] := VERSION;
    buf[5] := 0;
    ghost var six := buf[..6];
    SixBytes(six, Big32(bodyLen));
    PutUint16(buf, 6, cmd % 0x1_0000);
    Low16(cmd);
    EightBytes(buf[..], six, Big16(cmd));
  }

  lemma SixBytes(six: seq<byte>, len: seq<byte>)
    requires |six| == 6 && |len| == 4 && six[0..4] == len && six[4] == VERSION && six[5] == 0
    ensures six == len + [VERSION, 0]
  {
    assert six == six[0..4] + [six[4], six[5]];
  }

  lemma EightBytes(buf: seq<byte>, six: seq<byte>, cmd: seq<byte>)
    requires |buf| >= 8 && |six| == 6 && |cmd| == 2 && buf[6..6 + 2] == cmd
    requires forall i | 0 <= i < 6 :: buf[i] == six[i]
    ensures buf[..HEADER_SIZE] == six + cmd
  {
    assert buf[..6] == six;
    assert buf[..HEADER_SIZE] == buf[..6] + buf[6..8];
  }

  method Copy(buf: array<byte>, at: nat, body: seq<byte>)
    requires at + |body| <= buf.Length
    modifies buf
    ensures buf[..at] == old(buf[..at]) && buf[at..at + |body|] == body
  {
    for i := 0 to |body|
      invariant buf[..at] == old(buf[..at]) && buf[at..at + i] == body[..i]
    {
      buf[at + i] := body[i];
      assert buf[at..at + i + 1] == buf[at..at + i] + [body[i]];
    }
  }

  method FillFrame(body: seq<byte>, cmd: int) returns (b: array<byte>)
    requires |body| <= MAX_BODY
    ensures fresh(b) && b[..] == Wire(body, cmd)
  {
    b := new byte[HEADER_SIZE + |body|];
    PutHeader(b, |body|, cmd);
    Copy(b, HEADER_SIZE, body);
    assert b[..] == b[..HEADER_SIZE] + b[HEADER_SIZE..HEADER_SIZE + |body|];
  }

  /** The encoder fills the buffer by index; what it returns is the wire form of the frame. */
  method EncodeFrame<F>(c: Codec<F>, f: F) returns (buf: array?<byte>, error: Option<Error>)
    ensures error.Some? ==> Encode(c, f) == Err(error.value)
    ensures error.None? ==> buf != null && fresh(buf) && Encode(c, f) == Ok(buf[..])
  {
    if c.cmd(f) == CMD_UNKNOWN { return null, Some(CmdUnknown); }
    var marshalled := c.marshal(f);
    if marshalled.None? { return null, Some(MarshalFailed); }
    var body := marshalled.value;
    if |body| > MAX_BODY { return null, Some(BodyTooLarge); }
    buf := FillFrame(body, c.cmd(f));
    return buf, None;
  }

  /** One frame off the stream: the reader is `Parse` on the bytes that are left, however they arrive. */
  method ReadFrame<F>(c: Codec<F>, s: NetStream) returns (r: Result<F>)
    modifies s, s.conn
    ensures (r, s.Rest()) == Parse(c, old(s.Rest()))
  {
    var header := s.Peek(HEADER_SIZE);
    if header.None? { return Err(ShortHeader); }
    var hdr := header.value;
    var bodyLen := FromBig32(hdr[0..4]);
    if hdr[4] != VERSION { return Err(BadVersion); }
    if hdr[5] != 0 { return Err(BadFlag); }
    if bodyLen > MAX_BODY { return Err(BodyTooLarge); }
    var full := s.Peek(HEADER_SIZE + bodyLen);
    if full.None? { return Err(ShortBody); }
    var ok := s.Skip(HEADER_SIZE + bodyLen);
    var f := Some(c.zero);
    if bodyLen > 0 { f := c.unmarshal(full.value[HEADER_SIZE..]); }
    if f.None? { return Err(UnmarshalFailed); }
    if c.cmd(f.value) == CMD_UNKNOWN { return Err(CmdUnknown); }
    return Ok(f.value);
  }

  /** The read loop of a connection up to its first error: the frames handled, in order. */
  method Pump<F(!new)>(c: Codec<F>, s: NetStream) returns (frames: seq<F>, error: Error)
    modifies s, s.conn
    ensures (frames, error) == ParseAll(c, old(s.Rest()))
  {
    frames := [];
    ghost var all := ParseAll(c, s.Rest());
    error := ShortHeader;
    var more := true;
    PrependNothing(frames, all);
    while more
      invariant more ==> Prepend(frames, ParseAll(c, s.Rest())) == all
      invariant !more ==> (frames, error) == all
      decreases if more then 1 + |s.Rest()| else 0
    {
      ghost var before := s.Rest();
      var r := ReadFrame(c, s);
      ParseStep(c, before, frames);
      match r
      case Ok(f) => frames := frames + [f];
      case Err(e) => error, more := e, false;
    }
  }

  /**
   * End to end: however the bytes of a list of encodable frames, and of what follows them, are cut into pieces
   * and handed out, the read loop yields exactly those frames first.
   */
  method ReceiveAll<F(!new)>(c: Codec<F>, ghost sent: seq<F>, ghost tail: seq<byte>, pieces: seq<seq<byte>>,
                               eager: bool)
    returns (frames: seq<F>, error: Error)
    requires Inverse(c) && Encodable(c, sent) && Concat(pieces) == WireAll(c, sent) + tail
    ensures (frames, error) == Prepend(sent, ParseAll(c, tail))
  {
    var conn := new Conn(pieces, eager);
    var s := new NetStream(conn);
    assert s.Rest() == Concat(pieces);
    frames, error := Pump(c, s);
    StreamRoundTrip(c, sent, tail);
  }

  lemma ParseStep<F(!new)>(c: Codec<F>, rest: seq<byte>, frames: seq<F>)
    ensures var (r, tail) := Parse(c, rest);
      Prepend(frames, ParseAll(c, rest)) ==
        (match r case Ok(f) => Prepend(frames + [f], ParseAll(c, tail)) case Err(e) => (frames, e))
    ensures Parse(c, rest).0.Ok? ==> |Parse(c, rest).1| < |rest|
  {
    ParseShrinks(c, rest);
    var (r, tail) := Parse(c, rest);
    match r
    case Ok(f) => assert frames + ([f] + ParseAll(c, tail).0) == frames + [f] + ParseAll(c, tail).0;
    case Err(e) => assert frames + [] == frames;
  }
}
