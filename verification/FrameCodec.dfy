/**
 * The length-prefixed frame format: a four byte big-endian payload length, a type byte, the payload.
 * `Encode` is what one successful `WriteFrame` sends, `Decode` what one `ReadFrame` makes of a stream.
 */
module FrameCodec {
  import opened Collections

  const FRAME_HEADER_SIZE := 5
  const MAX_FRAME_SIZE := 0x10_0000

  const HEARTBEAT: Byte := 3
  const CLOSE: Byte := 5

  type Byte = x: int | 0 <= x < 256

  datatype Frame = Frame(kind: Byte, payload: seq<Byte>)

  datatype ReadError = Ended | ShortHeader | TooLarge | ShortPayload

  /** `binary.BigEndian.PutUint32`. */
  function BigEndian(n: nat): (bytes: seq<Byte>)
    ensures |bytes| == 4
  {
    [n / 0x100_0000 % 256, n / 0x1_0000 % 256, n / 0x100 % 256, n % 256]
  }

  /** `binary.BigEndian.Uint32`. */
  function Number(bytes: seq<Byte>): (n: nat)
    requires |bytes| == 4
    ensures n < 0x1_0000_0000
  {
    (bytes[0] as int) * 0x100_0000 + (bytes[1] as int) * 0x1_0000 + (bytes[2] as int) * 0x100 + bytes[3]
  }

  predicate Encodable(f: Frame) {
    |f.payload| <= MAX_FRAME_SIZE
  }

  function Header(f: Frame): (bytes: seq<Byte>)
    ensures |bytes| == FRAME_HEADER_SIZE
  {
    BigEndian(|f.payload|) + [f.kind]
  }

  function Encode(f: Frame): seq<Byte> {
    Header(f) + f.payload
  }

  function EncodeAll(fs: seq<Frame>): seq<Byte> {
    if fs == [] then [] else Encode(fs[0]) + EncodeAll(fs[1..])
  }

  /** The payload length a header announces. */
  function Announced(header: seq<Byte>): nat
    requires |header| >= 4
  {
    Number(header[..4])
  }

  /** The first frame of a stream and the bytes after it. */
  function Decode(s: seq<Byte>): (r: Result<(Frame, seq<Byte>), ReadError>)
    ensures r.Ok? ==> |r.value.1| < |s|
  {
    if s == [] then Err(Ended)
    else if |s| < FRAME_HEADER_SIZE then Err(ShortHeader)
    else if Announced(s) > MAX_FRAME_SIZE then Err(TooLarge)
    else if |s| - FRAME_HEADER_SIZE < Announced(s) then Err(ShortPayload)
    else
      var end := FRAME_HEADER_SIZE + Announced(s);
      Ok((Frame(s[4], s[FRAME_HEADER_SIZE..end]), s[end..]))
  }

  /**
   * The format in terms of the bytes: four of length, most significant first and at most 1 MiB, one of
   * type, then the payload.
   */
  lemma DecodeBytes(s: seq<Byte>)
    ensures Decode(s) == Err(Ended) <==> s == []
    ensures Decode(s) == Err(ShortHeader) <==> 0 < |s| < 5
    ensures |s| >= 5 ==>
              var len := (s[0] as int) * 0x100_0000 + (s[1] as int) * 0x1_0000 + (s[2] as int) * 0x100 + s[3];
              && (Decode(s) == Err(TooLarge) <==> len > 1048576)
              && (Decode(s) == Err(ShortPayload) <==> len <= 1048576 && |s| < 5 + len)
              && (Decode(s).Ok? <==> len <= 1048576 && |s| >= 5 + len)
              && (Decode(s).Ok? ==> Decode(s).value == (Frame(s[4], s[5..5 + len]), s[5 + len..]))
  {
  }

  /** What a failed read leaves unread: an oversized frame is given up after its header. */
  function AfterFailure(s: seq<Byte>): seq<Byte>
    requires Decode(s).Err?
  {
    if Decode(s) == Err(TooLarge) then s[FRAME_HEADER_SIZE..] else []
  }

  /** All frames of a stream, and how it ends. */
  function DecodeAll(s: seq<Byte>): (seq<Frame>, ReadError)
    decreases |s|
  {
    match Decode(s)
    case Err(e) => ([], e)
    case Ok((f, rest)) => var (fs, e) := DecodeAll(rest); ([f] + fs, e)
  }

  // ---------------------------------------------------------------- parser and printer are inverse

  lemma NumberOfBigEndian(n: nat)
    requires n < 0x1_0000_0000
    ensures Number(BigEndian(n)) == n
  {
    DivideTwice(n, 0x100);
    DivideTwice(n, 0x1_0000);
    LastByte(n);
    LastByte(n / 0x100);
    LastByte(n / 0x1_0000);
  }

  lemma DivideTwice(n: nat, d: nat)
    requires d == 0x100 || d == 0x1_0000
    ensures n / (0x100 * d) == n / d / 0x100
  {
    var q, r := n / (0x100 * d), n % (0x100 * d);
    assert n == q * 0x100 * d + r;
    assert n / d == q * 0x100 + r / d;
  }

  lemma LastByte(n: nat)
    ensures n == n / 0x100 * 0x100 + n % 256
  {
  }

  /** The first byte in which two encodings differ is smaller for the smaller number: most significant byte first. */
  lemma BigEndianOrder(m: nat, n: nat) returns (i: nat)
    requires m < n < 0x1_0000_0000
    ensures i < 4 && BigEndian(m)[..i] == BigEndian(n)[..i] && BigEndian(m)[i] < BigEndian(n)[i]
  {
    hide BigEndian;
    NumberOfBigEndian(m);
    NumberOfBigEndian(n);
    var a, b := BigEndian(m), BigEndian(n);
    i := if a[0] != b[0] then 0 else if a[1] != b[1] then 1 else if a[2] != b[2] then 2 else 3;
    assert (a[0] as int) * 0x100_0000 + (a[1] as int) * 0x1_0000 + (a[2] as int) * 0x100 + a[3] == m;
    assert (b[0] as int) * 0x100_0000 + (b[1] as int) * 0x1_0000 + (b[2] as int) * 0x100 + b[3] == n;
  }

  lemma BigEndianOfNumber(bytes: seq<Byte>)
    requires |bytes| == 4
    ensures BigEndian(Number(bytes)) == bytes
  {
    var n := Number(bytes);
    assert n / 0x100 == (bytes[0] as int) * 0x1_0000 + (bytes[1] as int) * 0x100 + bytes[2];
    assert n / 0x1_0000 == (bytes[0] as int) * 0x100 + bytes[1];
    assert n / 0x100_0000 == bytes[0];
  }

  /** Exactly the encodable frames are read back, each as itself, with what follows untouched. */
  lemma DecodeIsExact(s: seq<Byte>, f: Frame, rest: seq<Byte>)
    ensures Decode(s) == Ok((f, rest)) <==> Encodable(f) && s == Encode(f) + rest
  {
    hide BigEndian, Number;
    if Encodable(f) && s == Encode(f) + rest {
      NumberOfBigEndian(|f.payload|);
      assert s[..4] == BigEndian(|f.payload|);
      assert s[4] == f.kind;
      assert s[5..5 + |f.payload|] == f.payload && s[5 + |f.payload|..] == rest;
    }
    if Decode(s) == Ok((f, rest)) {
      BigEndianOfNumber(s[..4]);
      assert s == s[..4] + [s[4]] + s[5..5 + |f.payload|] + rest;
    }
  }

  /** A stream of frames is read back as those frames, however the stream goes on. */
  lemma {:induction false} StreamRoundTrip(fs: seq<Frame>, rest: seq<Byte>)
    requires forall f :: f in fs ==> Encodable(f)
    ensures DecodeAll(EncodeAll(fs) + rest) == (fs + DecodeAll(rest).0, DecodeAll(rest).1)
    decreases |fs|
  {
    hide Decode, Encode;
    if fs == [] {
      assert EncodeAll(fs) + rest == rest;
      assert fs + DecodeAll(rest).0 == DecodeAll(rest).0;
    } else {
      assert EncodeAll(fs) + rest == Encode(fs[0]) + (EncodeAll(fs[1..]) + rest);
      DecodeIsExact(EncodeAll(fs) + rest, fs[0], EncodeAll(fs[1..]) + rest);
      StreamRoundTrip(fs[1..], rest);
      assert [fs[0]] + (fs[1..] + DecodeAll(rest).0) == fs + DecodeAll(rest).0;
    }
  }

  /** Nothing is lost or invented: a stream that ends between frames is the encoding of what was read. */
  lemma {:induction false} StreamIsExact(s: seq<Byte>, fs: seq<Frame>)
    ensures DecodeAll(s) == (fs, Ended) <==> s == EncodeAll(fs) && forall f :: f in fs ==> Encodable(f)
    decreases |s|
  {
    hide Encode;
    if s == EncodeAll(fs) && forall f :: f in fs ==> Encodable(f) {
      StreamRoundTrip(fs, []);
      assert EncodeAll(fs) + [] == s;
      assert DecodeAll([]) == ([], Ended);
      assert fs + [] == fs;
    }
    if DecodeAll(s) == (fs, Ended) && Decode(s).Ok? {
      var (f, rest) := Decode(s).value;
      StreamIsExact(rest, fs[1..]);
      DecodeIsExact(s, f, rest);
      assert fs[0] == f;
      forall g | g in fs ensures Encodable(g) {
        assert g == f || g in fs[1..];
      }
    }
  }

  /** One more frame written is one more encoding at the end of the stream. */
  lemma {:induction false} WrittenInOrder(fs: seq<Frame>, f: Frame)
    ensures EncodeAll(fs + [f]) == EncodeAll(fs) + Encode(f)
  {
    hide Encode;
    if fs == [] {
      assert [f][1..] == [];
      assert Encode(f) + [] == Encode(f);
      assert fs + [f] == [f];
    } else {
      WrittenInOrder(fs[1..], f);
      assert (fs + [f])[1..] == fs[1..] + [f];
      assert Encode(fs[0]) + (EncodeAll(fs[1..]) + Encode(f)) == EncodeAll(fs) + Encode(f);
    }
  }

  // ---------------------------------------------------------------- HTTP detection

  const HTTP_METHODS := ["GET ", "POST", "PUT ", "DELE", "HEAD", "OPTI", "PATC", "CONN", "TRAC"]

  predicate IsHTTPRequest(data: seq<Byte>) {
    |data| >= 4 && exists i :: 0 <= i < |HTTP_METHODS| && StartsWith(data[..4], HTTP_METHODS[i])
  }

  predicate StartsWith(data: seq<Byte>, prefix: string) {
    |prefix| <= |data| && forall j :: 0 <= j < |prefix| ==> data[j] == prefix[j] as int
  }

  /** HTTP is told by the first four bytes: the nine beginnings of a request line. */
  lemma HTTPExactly(data: seq<Byte>)
    ensures IsHTTPRequest(data) <==>
            && |data| >= 4
            && var first := [data[0] as char, data[1] as char, data[2] as char, data[3] as char];
               || first == "GET " || first == "POST" || first == "PUT " || first == "DELE" || first == "HEAD"
               || first == "OPTI" || first == "PATC" || first == "CONN" || first == "TRAC"
  {
    if |data| >= 4 {
      var first := [data[0] as char, data[1] as char, data[2] as char, data[3] as char];
      forall i | 0 <= i < |HTTP_METHODS| ensures StartsWith(data[..4], HTTP_METHODS[i]) <==> first == HTTP_METHODS[i] {
        MethodMatches(data[..4], HTTP_METHODS[i]);
      }
      hide StartsWith;
      var names := HTTP_METHODS;
      assert names[0] == "GET " && names[1] == "POST" && names[2] == "PUT " && names[3] == "DELE" && names[4] == "HEAD";
      assert names[5] == "OPTI" && names[6] == "PATC" && names[7] == "CONN" && names[8] == "TRAC";
    }
  }

  lemma MethodMatches(first: seq<Byte>, name: string)
    requires |first| == |name| == 4
    ensures StartsWith(first, name) <==> [first[0] as char, first[1] as char, first[2] as char, first[3] as char] == name
  {
  }

  lemma HTTPStartsWithLetter(data: seq<Byte>)
    requires IsHTTPRequest(data)
    ensures data[0] >= 'C' as int
  {
    var i :| 0 <= i < |HTTP_METHODS| && StartsWith(data[..4], HTTP_METHODS[i]);
    assert data[..4][0] == HTTP_METHODS[i][0] as int;
  }

  /** No frame is taken for HTTP by the peek at its first four bytes. */
  lemma FrameIsNotHTTP(f: Frame, rest: seq<Byte>)
    requires Encodable(f)
    ensures !IsHTTPRequest((Encode(f) + rest)[..4])
  {
    var peek := (Encode(f) + rest)[..4];
    assert peek[0] == |f.payload| / 0x100_0000 % 256 == 0;
    if IsHTTPRequest(peek) {
      HTTPStartsWithLetter(peek);
    }
  }

  /** And no HTTP request is taken for a frame: its first bytes announce more than any frame may hold. */
  lemma HTTPIsNotAFrame(s: seq<Byte>)
    requires |s| >= FRAME_HEADER_SIZE && IsHTTPRequest(s[..4])
    ensures Decode(s) == Err(TooLarge)
  {
    HTTPStartsWithLetter(s[..4]);
    assert Announced(s) >= (s[0] as int) * 0x100_0000;
  }
}
