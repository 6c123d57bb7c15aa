/**
 * WebSocket messages as a byte stream: `Conn.Read` across message boundaries, `Conn.Write`, and the
 * frame reader and writer on top of them.
 */
module WebSocketConn {
  import opened Collections
  import opened FrameCodec

  /** A message of a peer; `broken` if the connection fails after `data`, inside the message. */
  datatype Message = Message(binary: bool, data: seq<Byte>, broken: bool)

  /** The part of the current message not yet read. */
  datatype Reader = Reader(rest: seq<Byte>, broken: bool)

  /** How the transport behaves at one read: bytes offered, and whether the end comes with them. */
  datatype Delivery = Delivery(size: nat, endToo: bool)

  /** What the transport reports when there is nothing more to read. */
  datatype Ending = EndOfFile | TimedOut | Lost

  datatype HandlerEnd = Stopped | Disconnected | CloseRequested | ReadTimeout | ReadFailed(error: ReadError)

  /** The byte stream that a sequence of messages carries. */
  function Stream(messages: seq<Message>): seq<Byte> {
    if messages == [] then []
    else (if messages[0].binary then messages[0].data else []) + Stream(messages[1..])
  }

  lemma {:induction false} StreamConcat(a: seq<Message>, b: seq<Message>)
    ensures Stream(a + b) == Stream(a) + Stream(b)
  {
    if a == [] {
      assert a + b == b;
    } else {
      assert (a + b)[0] == a[0] && (a + b)[1..] == a[1..] + b;
      StreamConcat(a[1..], b);
    }
  }

  lemma StreamOne(m: Message)
    ensures Stream([m]) == if m.binary then m.data else []
  {
    assert [m][1..] == [];
  }

  /** A connection fails once: only the last message may be broken. */
  ghost predicate BreaksLast(messages: seq<Message>) {
    forall i :: 0 <= i < |messages| - 1 ==> !messages[i].broken
  }

  /** A connection that fails inside a message does not end with a clean end of file. */
  function EndingOf(messages: seq<Message>, ending: Ending): Ending {
    if ending == EndOfFile && exists i :: 0 <= i < |messages| && messages[i].broken then Lost else ending
  }

  /** Cutting a message in two anywhere does not change the stream. */
  lemma CutAnywhere(a: seq<Message>, m: Message, k: nat, b: seq<Message>)
    requires k <= |m.data|
    ensures Stream(a + [m.(data := m.data[..k], broken := false), m.(data := m.data[k..])] + b) == Stream(a + [m] + b)
  {
    hide Stream;
    var front, back := m.(data := m.data[..k], broken := false), m.(data := m.data[k..]);
    StreamConcat(a + [m], b);
    StreamConcat(a, [m]);
    StreamConcat(a + [front, back], b);
    StreamConcat(a, [front, back]);
    StreamConcat([front], [back]);
    StreamOne(m);
    StreamOne(front);
    StreamOne(back);
    assert [front] + [back] == [front, back];
    assert m.data[..k] + m.data[k..] == m.data;
  }

  /** Neither does an empty message, or one that is not binary, anywhere in between. */
  lemma OthersIgnored(a: seq<Message>, m: Message, b: seq<Message>)
    requires !m.binary || m.data == []
    ensures Stream(a + [m] + b) == Stream(a + b)
  {
    hide Stream;
    StreamConcat(a + [m], b);
    StreamConcat(a, [m]);
    StreamConcat(a, b);
    StreamOne(m);
  }

  /** The bytes of a header: its length, most significant byte first, and its type. */
  lemma HeaderBytes(f: Frame)
    requires Encodable(f)
    ensures var h := Header(f);
      && (h[0] as int) * 0x100_0000 + (h[1] as int) * 0x1_0000 + (h[2] as int) * 0x100 + h[3] == |f.payload|
      && h[4] == f.kind
  {
    hide BigEndian;
    NumberOfBigEndian(|f.payload|);
  }

  class Conn {
    const ending: Ending
    var readCount: nat
    var inbox: seq<Message>
    var reader: Option<Reader>
    var outbox: seq<Message>

    /** The bytes still to be read. */
    ghost function Pending(): seq<Byte>
      reads this`inbox, this`reader
    {
      (if reader.Some? then reader.value.rest else []) + Stream(inbox)
    }

    ghost predicate Valid()
      reads this`inbox, this`reader
    {
      BreaksLast(inbox) && (reader.Some? && reader.value.broken ==> inbox == [])
    }

    constructor (inbox: seq<Message>, ending: Ending)
      requires BreaksLast(inbox)
      ensures Valid() && Pending() == Stream(inbox) && outbox == [] && this.ending == EndingOf(inbox, ending)
      ensures this.ending == if ending == EndOfFile && exists m :: m in inbox && m.broken then Lost else ending
    {
      this.ending, this.inbox, reader, outbox, readCount := EndingOf(inbox, ending), inbox, None, [], 0;
    }

    /** The reader of one message: some of its bytes, or its end, or both at once. */
    method ReadMessage(p: array<Byte>, from: nat, delivery: Delivery) returns (n: nat, ended: bool, ok: bool)
      requires reader.Some? && from <= p.Length
      modifies this`reader, p
      ensures n <= p.Length - from && reader.Some? && reader.value.broken == old(reader).value.broken
      ensures p[from..from + n] + reader.value.rest == old(reader).value.rest
      ensures forall i :: 0 <= i < p.Length && !(from <= i < from + n) ==> p[i] == old(p[i])
      ensures ended ==> reader.value == Reader([], false)
      ensures !ok ==> !ended && n == 0 && reader.value == Reader([], true)
      ensures ok && !ended && from < p.Length ==> n > 0
    {
      var rest := reader.value.rest;
      if rest == [] {
        return 0, !reader.value.broken, !reader.value.broken;
      }
      n := Min(Max(1, delivery.size), Min(|rest|, p.Length - from));
      for i := 0 to n
        modifies p
        invariant p[from..from + i] == rest[..i]
        invariant forall j :: 0 <= j < p.Length && !(from <= j < from + i) ==> p[j] == old(p[j])
      {
        p[from + i] := rest[i];
        assert p[from..from + i + 1] == p[from..from + i] + [rest[i]];
      }
      reader := Some(Reader(rest[n..], reader.value.broken));
      ended := n == |rest| && delivery.endToo && !reader.value.broken;
      ok := true;
    }

    /** Takes the next message; one that is not binary is skipped. */
    method NextReader() returns (ok: bool)
      requires Valid() && reader.None?
      modifies this`inbox, this`reader
      ensures Valid() && Pending() == old(Pending())
      ensures if ok then |inbox| == |old(inbox)| - 1 else Pending() == []
    {
      if inbox == [] {
        return false;
      }
      var message := inbox[0];
      inbox := inbox[1..];
      if message.binary {
        reader := Some(Reader(message.data, message.broken));
      }
      ok := true;
    }

    /** One read from the current message; at its end the reader is dropped. */
    method ReadCurrent(p: array<Byte>, from: nat, delivery: Delivery) returns (n: nat, ended: bool, ok: bool)
      requires Valid() && reader.Some? && from <= p.Length
      modifies this`reader, p
      ensures Valid() && n <= p.Length - from && p[from..from + n] + Pending() == old(Pending())
      ensures forall i :: 0 <= i < p.Length && !(from <= i < from + n) ==> p[i] == old(p[i])
      ensures ended ==> reader.None?
      ensures ok && !ended && from < p.Length ==> n > 0
      ensures ended ==> ok
      ensures !ok ==> !ended && n == 0 && Pending() == []
    {
      hide Stream;
      ghost var before, after := reader.value.rest, Stream(inbox);
      n, ended, ok := ReadMessage(p, from, delivery);
      assert p[from..from + n] + (reader.value.rest + after) == before + after;
      if ended {
        reader := None;
        assert [] + after == after;
      }
      if !ok {
        NothingAfterBreak();
      }
    }

    /**
     * `Read`: the next bytes of the stream, whatever the message boundaries.  It fails only when there
     * is nothing left to read.
     */
    method Read(p: array<Byte>, from: nat, delivery: nat -> Delivery) returns (n: nat, ok: bool)
      requires Valid() && from <= p.Length
      modifies this`inbox, this`reader, this`readCount, p
      ensures Valid() && n <= p.Length - from
      ensures p[from..from + n] + Pending() == old(Pending())
      ensures forall i :: 0 <= i < p.Length && !(from <= i < from + n) ==> p[i] == old(p[i])
      ensures ok && from < p.Length ==> n > 0
      ensures !ok ==> n == 0 && Pending() == []
    {
      hide Conn.Pending, Conn.Valid;
      while true
        invariant Valid() && Pending() == old(Pending())
        invariant forall i :: 0 <= i < p.Length ==> p[i] == old(p[i])
        decreases |inbox|, if reader.Some? then 1 else 0
      {
        if reader.None? {
          ok := NextReader();
          if !ok {
            return 0, false;
          }
          if reader.None? {
            continue;
          }
        }
        var ended;
        n, ended, ok := ReadCurrent(p, from, delivery(readCount));
        readCount := readCount + 1;
        if ended && n == 0 {
          assert p[from..from] + Pending() == Pending();
          continue;
        }
        return;
      }
    }

    lemma NothingAfterBreak()
      requires Valid() && reader == Some(Reader([], true))
      ensures Pending() == []
    {
    }

    /** `io.ReadFull`. */
    method ReadFull(p: array<Byte>, delivery: nat -> Delivery) returns (n: nat, ok: bool)
      requires Valid()
      modifies this`inbox, this`reader, this`readCount, p
      ensures Valid() && n <= p.Length && p[..n] + Pending() == old(Pending())
      ensures ok <==> n == p.Length
      ensures !ok ==> Pending() == []
    {
      hide Conn.Pending, Conn.Valid;
      n := 0;
      ok := true;
      while n < p.Length && ok
        invariant Valid() && n <= p.Length && p[..n] + Pending() == old(Pending())
        invariant !ok ==> Pending() == []
        decreases p.Length - n, ok
      {
        ghost var done, before := p[..n], Pending();
        var more;
        more, ok := Read(p, n, delivery);
        assert p[..n + more] == done + p[n..n + more];
        assert done + before == done + p[n..n + more] + Pending();
        n := n + more;
      }
      ok := n >= p.Length;
    }

    /**
     * `ReadFrame`: reads exactly what `Decode` takes off the stream.  In terms of the bytes: four of length,
     * most significant first and at most 1 MiB, one of type, and the payload.
     */
    method ReadFrame(delivery: nat -> Delivery) returns (r: Result<Frame, ReadError>)
      requires Valid()
      modifies this`inbox, this`reader, this`readCount
      ensures Valid()
      ensures match Decode(old(Pending()))
              case Ok((f, rest)) => r == Ok(f) && Pending() == rest
              case Err(e) => r == Err(e) && Pending() == AfterFailure(old(Pending()))
      ensures r == Err(Ended) <==> old(Pending()) == []
      ensures r == Err(ShortHeader) <==> 0 < |old(Pending())| < 5
      ensures |old(Pending())| >= 5 ==>
                var s := old(Pending());
                var len := (s[0] as int) * 0x100_0000 + (s[1] as int) * 0x1_0000 + (s[2] as int) * 0x100 + s[3];
                && (r == Err(TooLarge) <==> len > 1048576)
                && (r == Err(ShortPayload) <==> len <= 1048576 && |s| < 5 + len)
                && (r.Ok? <==> len <= 1048576 && |s| >= 5 + len)
                && (r.Ok? ==> r.value == Frame(s[4], s[5..5 + len]) && Pending() == s[5 + len..])
                && (r == Err(TooLarge) ==> Pending() == s[5..])
    {
      hide BigEndian, Number, Stream;
      DecodeBytes(Pending());
      var header := new Byte[FRAME_HEADER_SIZE];
      var n, ok := ReadFull(header, delivery);
      ghost var afterHeader := Pending();
      if !ok {
        assert header[..n] + [] == header[..n];
        return Err(if n == 0 then Ended else ShortHeader);
      }
      ghost var s := header[..] + afterHeader;
      assert header[..n] == header[..] && s[..4] == header[..4] && s[4] == header[4] && s[5..] == afterHeader;
      assert old(Pending()) == s;
      var payloadLen := Number(header[..4]);
      if payloadLen > MAX_FRAME_SIZE {
        return Err(TooLarge);
      }
      var kind := header[4];
      var payload := new Byte[payloadLen];
      if payloadLen > 0 {
        n, ok := ReadFull(payload, delivery);
        if !ok {
          assert |payload[..n] + Pending()| < payloadLen;
          return Err(ShortPayload);
        }
        assert payload[..n] == payload[..];
      }
      assert payload[..] + Pending() == afterHeader;
      assert s[5..5 + payloadLen] == payload[..] && s[5 + payloadLen..] == Pending();
      r := Ok(Frame(kind, payload[..]));
    }

    /** `Write`: one binary message. */
    method Write(p: seq<Byte>, works: bool) returns (ok: bool)
      modifies this`outbox
      ensures ok == works
      ensures outbox == if ok then old(outbox) + [Message(true, p, false)] else old(outbox)
      ensures Stream(outbox) == Stream(old(outbox)) + if ok then p else []
    {
      hide Stream;
      assert Stream(outbox) + [] == Stream(outbox);
      if works {
        StreamConcat(outbox, [Message(true, p, false)]);
        StreamOne(Message(true, p, false));
        outbox := outbox + [Message(true, p, false)];
      }
      ok := works;
    }

    /** `WriteFrame`: header and payload go out as two messages; a frame too large is not begun. */
    method WriteFrame(f: Frame, works: nat -> bool) returns (ok: bool)
      modifies this`outbox
      ensures ok <==> Encodable(f) && works(0) && (f.payload != [] ==> works(1))
      ensures Stream(outbox) == Stream(old(outbox)) + (if ok then Encode(f) else if Encodable(f) && works(0) then Header(f) else [])
      ensures ok <==> |f.payload| <= 1048576 && works(0) && (f.payload != [] ==> works(1))
      ensures Stream(old(outbox)) <= Stream(outbox)
      ensures ok || (|f.payload| <= 1048576 && works(0)) ==>
                var sent := Stream(outbox)[|Stream(old(outbox))|..];
                && |sent| == 5 + (if ok then |f.payload| else 0)
                && (sent[0] as int) * 0x100_0000 + (sent[1] as int) * 0x1_0000 + (sent[2] as int) * 0x100 + sent[3] == |f.payload|
                && sent[4] == f.kind && sent[5..] == if ok then f.payload else []
      ensures old(outbox) <= outbox && forall i :: |old(outbox)| <= i < |outbox| ==> outbox[i].binary && !outbox[i].broken
    {
      hide Stream, BigEndian;
      ghost var before := Stream(outbox);
      if Encodable(f) { HeaderBytes(f); }
      assert before + [] == before;
      var payloadLen := |f.payload|;
      if payloadLen > MAX_FRAME_SIZE {
        return false;
      }
      ok := Write(BigEndian(payloadLen) + [f.kind], works(0));
      if !ok {
        return;
      }
      if payloadLen == 0 {
        assert Encode(f) == Header(f);
        return;
      }
      ok := Write(f.payload, works(1));
      assert before + Header(f) + f.payload == before + Encode(f);
      assert before + Header(f) + [] == before + Header(f);
    }
  }

  // ---------------------------------------------------------------- the frame handler

  /** What serving frames from a stream comes to: heartbeats seen, and how it ended. */
  datatype Served = Served(heartbeats: nat, end: HandlerEnd)

  /** `handleReadError`: a time-out, a clean end between frames, a stop, or a failure. */
  function EndOfRead(e: ReadError, ending: Ending, stopped: bool): HandlerEnd {
    if ending == TimedOut && e != TooLarge then ReadTimeout
    else if e == Ended && ending == EndOfFile then Disconnected
    else if stopped then Stopped
    else ReadFailed(e)
  }

  /** `stops(i)`: whether the stop channel is closed at the i-th look, two looks a turn at most. */
  function Serve(s: seq<Byte>, ending: Ending, stops: nat -> bool, turn: nat): Served
    decreases |s|
  {
    if stops(2 * turn) then Served(0, Stopped)
    else match Decode(s)
      case Err(e) => Served(0, EndOfRead(e, ending, stops(2 * turn + 1)))
      case Ok((f, rest)) =>
        if f.kind == CLOSE then Served(0, CloseRequested)
        else
          var more := Serve(rest, ending, stops, turn + 1);
          if f.kind == HEARTBEAT then Served(more.heartbeats + 1, more.end) else more
  }

  function Heartbeats(fs: seq<Frame>): nat {
    if fs == [] then 0 else (if fs[0].kind == HEARTBEAT then 1 else 0) + Heartbeats(fs[1..])
  }

  method HandleReadError(e: ReadError, ending: Ending, stopped: bool) returns (end: HandlerEnd)
    ensures end == EndOfRead(e, ending, stopped)
    ensures end.ReadTimeout? <==> ending == TimedOut && e != TooLarge
    ensures end.Disconnected? <==> ending == EndOfFile && e == Ended
    ensures end.Stopped? <==> stopped && !end.ReadTimeout? && !end.Disconnected?
    ensures !end.CloseRequested?
    ensures end.ReadFailed? ==> end.error == e
  {
    if ending == TimedOut && e != TooLarge {
      return ReadTimeout;
    }
    if e == Ended && ending == EndOfFile {
      return Disconnected;
    }
    end := if stopped then Stopped else ReadFailed(e);
  }

  /** `HandleFrames`. */
  method HandleFrames(conn: Conn, stops: nat -> bool, delivery: nat -> Delivery) returns (served: Served)
    requires conn.Valid()
    modifies conn`inbox, conn`reader, conn`readCount
    ensures conn.Valid() && served == Serve(old(conn.Pending()), conn.ending, stops, 0)
  {
    hide Decode, AfterFailure, Conn.Pending, Conn.Valid, EndOfRead;
    var heartbeats, turn := 0, 0;
    while true
      invariant conn.Valid()
      invariant Serve(old(conn.Pending()), conn.ending, stops, 0)
             == var more := Serve(conn.Pending(), conn.ending, stops, turn); Served(heartbeats + more.heartbeats, more.end)
      decreases |conn.Pending()|
    {
      if stops(2 * turn) {
        return Served(heartbeats, Stopped);
      }
      DecodedShorter(conn.Pending());
      var r := conn.ReadFrame(delivery);
      if r.Err? {
        var end := HandleReadError(r.error, conn.ending, stops(2 * turn + 1));
        return Served(heartbeats, end);
      }
      if r.value.kind == CLOSE {
        return Served(heartbeats, CloseRequested);
      }
      if r.value.kind == HEARTBEAT {
        heartbeats := heartbeats + 1;
      }
      turn := turn + 1;
    }
  }

  /** How serving a well-formed stream ends: at its first close request, or when the transport ends. */
  function EndOfFrames(fs: seq<Frame>, ending: Ending): HandlerEnd {
    if fs == [] then EndOfRead(Ended, ending, false)
    else if fs[0].kind == CLOSE then CloseRequested
    else EndOfFrames(fs[1..], ending)
  }

  /** The frames before the first close request. */
  function UntilClose(fs: seq<Frame>): seq<Frame> {
    if fs == [] || fs[0].kind == CLOSE then [] else [fs[0]] + UntilClose(fs[1..])
  }

  /** Every frame before a close request is handled, heartbeats counted, and the end is what it should be. */
  lemma {:induction false} ServesAllFrames(fs: seq<Frame>, ending: Ending, stops: nat -> bool, turn: nat)
    requires forall f :: f in fs ==> Encodable(f)
    requires forall i :: !stops(i)
    ensures Serve(EncodeAll(fs), ending, stops, turn) == Served(Heartbeats(UntilClose(fs)), EndOfFrames(fs, ending))
    decreases |fs|
  {
    hide Decode, Encode;
    if fs == [] {
      assert Decode([]) == Err(Ended) by { EndedIsEmpty([]); }
    } else {
      DecodeIsExact(EncodeAll(fs), fs[0], EncodeAll(fs[1..]));
      ServesAllFrames(fs[1..], ending, stops, turn + 1);
      if fs[0].kind != CLOSE {
        var served := UntilClose(fs);
        assert served[0] == fs[0] && served[1..] == UntilClose(fs[1..]);
      }
    }
  }

  /** The types of frames. */
  function Kinds(fs: seq<Frame>): seq<Byte> {
    seq(|fs|, i requires 0 <= i < |fs| => fs[i].kind)
  }

  /** Whether the handler's turn `k` turns from now is its last: a stop, a close request (type 5), or no further frame. */
  ghost predicate LastTurn(fs: seq<Frame>, stops: nat -> bool, turn: nat, k: nat) {
    k >= |fs| || stops(2 * (turn + k)) || fs[k].kind == 5
  }

  /** The error an unfinished read comes to. */
  ghost predicate EndsReading(end: HandlerEnd, e: ReadError, ending: Ending, stopped: bool) {
    if ending == TimedOut && e != TooLarge then end == ReadTimeout
    else if e == Ended && ending == EndOfFile then end == Disconnected
    else if stopped then end == Stopped
    else end == ReadFailed(e)
  }

  /**
   * What serving any bytes comes to: the frames are taken up to the first turn that is the last, those of
   * type 3 are counted, and that turn says how it ends.
   */
  lemma {:induction false} ServesExactly(s: seq<Byte>, ending: Ending, stops: nat -> bool, turn: nat) returns (k: nat)
    ensures var (fs, e), served := DecodeAll(s), Serve(s, ending, stops, turn);
      && k <= |fs| && LastTurn(fs, stops, turn, k) && (forall j :: 0 <= j < k ==> !LastTurn(fs, stops, turn, j))
      && served.heartbeats == Count(Kinds(fs[..k]), 3)
      && (if stops(2 * (turn + k)) then served.end == Stopped
          else if k < |fs| then served.end == CloseRequested
          else EndsReading(served.end, e, ending, stops(2 * (turn + k) + 1)))
    decreases |s|
  {
    hide Decode, Count;
    DecodedShorter(s);
    NoneCounted();
    k := 0;
    if !stops(2 * turn) && Decode(s).Ok? && Decode(s).value.0.kind != CLOSE {
      var (f, rest) := Decode(s).value;
      var more := ServesExactly(rest, ending, stops, turn + 1);
      k := more + 1;
      var fs, later := DecodeAll(s).0, DecodeAll(rest).0;
      assert fs == [f] + later && turn + k == turn + 1 + more;
      HeartbeatCounted(f, later[..more]);
      assert fs[..k] == [f] + later[..more];
      forall j | 0 <= j < k ensures !LastTurn(fs, stops, turn, j) {
        if j > 0 {
          assert !LastTurn(later, stops, turn + 1, j - 1) && turn + 1 + (j - 1) == turn + j;
        }
      }
    }
  }

  lemma NoneCounted()
    ensures Count(Kinds([]), 3) == 0
  {
  }

  lemma HeartbeatCounted(f: Frame, fs: seq<Frame>)
    ensures Count(Kinds([f] + fs), 3) == Count(Kinds(fs), 3) + if f.kind == 3 then 1 else 0
  {
    assert Kinds([f] + fs) == [f.kind] + Kinds(fs);
    CountConcat([f.kind], Kinds(fs), 3);
    CountAppend([], f.kind, 3);
  }

  /** `s` is whole frames without a close request, and no look at the stop channel before any of them, or after, finds it closed. */
  ghost predicate CleanRun(s: seq<Byte>, fs: seq<Frame>, stops: nat -> bool, turn: nat) {
    && s == EncodeAll(fs) && (forall f :: f in fs ==> Encodable(f) && f.kind != CLOSE)
    && forall k :: turn <= k <= turn + |fs| ==> !stops(2 * k)
  }

  /**
   * The handler reports a clean disconnect if and only if the transport ended with an end of file after
   * whole frames, none of them a close request, and no stop was seen on the way.
   */
  lemma {:induction false} CleanEndExactly(s: seq<Byte>, ending: Ending, stops: nat -> bool, turn: nat)
    ensures Serve(s, ending, stops, turn).end == Disconnected <==> ending == EndOfFile && exists fs :: CleanRun(s, fs, stops, turn)
    decreases |s|
  {
    hide Decode, Encode;
    EndedIsEmpty(s);
    if Serve(s, ending, stops, turn).end == Disconnected {
      if Decode(s).Ok? {
        var (f, rest) := Decode(s).value;
        CleanEndExactly(rest, ending, stops, turn + 1);
        var fs :| CleanRun(rest, fs, stops, turn + 1);
        DecodeIsExact(s, f, rest);
        MoreClean(s, f, rest, fs, stops, turn);
      } else {
        assert CleanRun(s, [], stops, turn);
      }
    }
    if ending == EndOfFile && exists fs :: CleanRun(s, fs, stops, turn) {
      var fs :| CleanRun(s, fs, stops, turn);
      assert !stops(2 * turn);
      if fs != [] {
        DecodeIsExact(s, fs[0], EncodeAll(fs[1..]));
        assert CleanRun(EncodeAll(fs[1..]), fs[1..], stops, turn + 1);
        DecodedShorter(s);
        CleanEndExactly(EncodeAll(fs[1..]), ending, stops, turn + 1);
      }
    }
  }

  lemma MoreClean(s: seq<Byte>, f: Frame, rest: seq<Byte>, fs: seq<Frame>, stops: nat -> bool, turn: nat)
    requires CleanRun(rest, fs, stops, turn + 1) && s == Encode(f) + rest && Encodable(f) && f.kind != CLOSE && !stops(2 * turn)
    ensures CleanRun(s, [f] + fs, stops, turn)
  {
    hide Encode;
    assert ([f] + fs)[1..] == fs;
  }

  lemma EndedIsEmpty(s: seq<Byte>)
    ensures Decode(s) == Err(Ended) <==> s == []
  {
  }

  // ---------------------------------------------------------------- the round trip

  /** Frames read one after the other until an error: exactly what the pending bytes decode to. */
  method ReadAll(conn: Conn, delivery: nat -> Delivery) returns (fs: seq<Frame>, e: ReadError)
    requires conn.Valid()
    modifies conn`inbox, conn`reader, conn`readCount
    ensures conn.Valid() && (fs, e) == DecodeAll(old(conn.Pending()))
    ensures e == Ended ==> conn.Pending() == []
  {
    hide Decode, Conn.Pending, Conn.Valid;
    fs := [];
    assert [] + DecodeAll(conn.Pending()).0 == DecodeAll(conn.Pending()).0;
    while true
      invariant conn.Valid()
      invariant DecodeAll(old(conn.Pending())) == (fs + DecodeAll(conn.Pending()).0, DecodeAll(conn.Pending()).1)
      decreases |conn.Pending()|
    {
      ghost var rest := conn.Pending();
      var r := conn.ReadFrame(delivery);
      if r.Err? {
        assert fs + [] == fs;
        LeftAfterEnd(rest);
        return fs, r.error;
      }
      DecodedShorter(rest);
      assert fs + ([r.value] + DecodeAll(conn.Pending()).0) == fs + [r.value] + DecodeAll(conn.Pending()).0;
      fs := fs + [r.value];
    }
  }

  lemma LeftAfterEnd(s: seq<Byte>)
    requires Decode(s).Err?
    ensures Decode(s) == Err(Ended) ==> AfterFailure(s) == []
  {
  }

  lemma DecodedShorter(s: seq<Byte>)
    ensures Decode(s).Ok? ==> |Decode(s).value.1| < |s|
  {
  }

  /** Frames written one after the other; `works(i, j)` is whether the j-th write of the i-th frame succeeds. */
  method SendAll(conn: Conn, fs: seq<Frame>, works: (nat, nat) -> bool) returns (ok: bool)
    modifies conn`outbox
    ensures ok <==> forall i :: 0 <= i < |fs| ==> Encodable(fs[i]) && works(i, 0) && (fs[i].payload != [] ==> works(i, 1))
    ensures ok ==> Stream(conn.outbox) == Stream(old(conn.outbox)) + EncodeAll(fs)
  {
    hide Stream, Encode, EncodeAll;
    NothingEncoded();
    assert Stream(conn.outbox) + [] == Stream(conn.outbox);
    for i := 0 to |fs|
      invariant forall k :: 0 <= k < i ==> Encodable(fs[k]) && works(k, 0) && (fs[k].payload != [] ==> works(k, 1))
      invariant Stream(conn.outbox) == Stream(old(conn.outbox)) + EncodeAll(fs[..i])
    {
      ok := conn.WriteFrame(fs[i], (j: nat) => works(i, j));
      if !ok {
        return false;
      }
      WrittenInOrder(fs[..i], fs[i]);
      assert fs[..i + 1] == fs[..i] + [fs[i]];
      assert Stream(conn.outbox) == Stream(old(conn.outbox)) + (EncodeAll(fs[..i]) + Encode(fs[i]));
    }
    assert fs[..|fs|] == fs;
    ok := true;
  }

  lemma NothingEncoded()
    ensures EncodeAll([]) == []
  {
  }

  /**
   * The stream round trip.  Frames that were sent come back exactly, in order and with nothing left over,
   * through any messages that carry the same bytes (`recut`: cut anywhere, with empty and non-binary ones
   * in between) and in whatever chunks the transport delivers them.
   */
  method RoundTrip(fs: seq<Frame>, recut: seq<Message> -> seq<Message>, delivery: nat -> Delivery)
    returns (got: seq<Frame>, e: ReadError, receiver: Conn)
    requires forall i :: 0 <= i < |fs| ==> Encodable(fs[i])
    requires forall ms :: Stream(recut(ms)) == Stream(ms) && BreaksLast(recut(ms))
    ensures got == fs && e == Ended && receiver.Valid() && receiver.Pending() == []
  {
    hide Stream, Encode, DecodeAll, EncodeAll, BreaksLast;
    NothingCarried();
    var sender := new Conn([], EndOfFile);
    var sent := SendAll(sender, fs, (_, _) => true);
    assert Stream([]) + EncodeAll(fs) == EncodeAll(fs);
    receiver := new Conn(recut(sender.outbox), EndOfFile);
    got, e := ReadAll(receiver, delivery);
    StreamIsExact(EncodeAll(fs), fs);
  }

  lemma NothingCarried()
    ensures Stream([]) == [] && BreaksLast([])
  {
  }
}
