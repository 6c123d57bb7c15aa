/** The copy loop of a pipe: what it writes, what it reports, and when it reports success. */
module Pipe {
  import opened Collections
  import opened FrameCodec
  import opened BufferOwnership
  import Pools = BufferPool

  /** What `src.Read` returns besides bytes. */
  datatype ReadEnd = More | EndOfFile | Broken

  /**
   * One turn of the loop: whether the stop channel is closed, what the source delivers, and how much of
   * it the destination takes, with or without an error.
   */
  datatype Turn = Turn(stop: bool, read: seq<Byte>, readEnd: ReadEnd, wrote: nat, writeFails: bool)

  /** How the copy ends; `Running` if the script of turns does not get that far. */
  datatype End = Running | Stopped | WriteFailed | ShortWrite | ReadFailed | Finished

  datatype Copied = Copied(delivered: seq<Byte>, accepted: seq<Byte>, reports: seq<nat>, end: End)

  /** A destination takes no more than it is given, a source delivers no more than fits. */
  predicate Possible(turns: seq<Turn>, bufSize: nat) {
    forall i :: 0 <= i < |turns| ==> |turns[i].read| <= bufSize && turns[i].wrote <= |turns[i].read|
  }

  lemma PossibleMeans(turns: seq<Turn>, bufSize: nat)
    ensures Possible(turns, bufSize) <==> forall t :: t in turns ==> |t.read| <= bufSize && t.wrote <= |t.read|
  {
  }

  /** How one turn ends the copy, if it does. */
  function EndOf(t: Turn): End {
    if t.stop then Stopped
    else if t.read != [] && t.writeFails then WriteFailed
    else if t.read != [] && t.wrote != |t.read| then ShortWrite
    else match t.readEnd
      case More => Running
      case EndOfFile => Finished
      case Broken => ReadFailed
  }

  /** The whole copy. */
  function Copy(turns: seq<Turn>): Copied {
    if turns == [] then Copied([], [], [], Running)
    else
      var t := turns[0];
      if t.stop then Copied([], [], [], Stopped)
      else
        var wrote := if t.wrote <= |t.read| then t.wrote else |t.read|;
        var reports := if t.read != [] && wrote > 0 then [wrote] else [];
        if EndOf(t) != Running then Copied(t.read, t.read[..wrote], reports, EndOf(t))
        else
          var rest := Copy(turns[1..]);
          Copied(t.read + rest.delivered, t.read[..wrote] + rest.accepted, reports + rest.reports, rest.end)
  }

  function Sum(ns: seq<nat>): nat {
    if ns == [] then 0 else Sum(ns[..|ns| - 1]) + ns[|ns| - 1]
  }

  lemma {:induction false} SumConcat(a: seq<nat>, b: seq<nat>)
    ensures Sum(a + b) == Sum(a) + Sum(b)
  {
    if b == [] {
      assert a + b == a;
    } else {
      SumConcat(a, b[..|b| - 1]);
      assert (a + b)[..|a + b| - 1] == a + b[..|b| - 1];
    }
  }

  lemma SumOne(n: nat)
    ensures Sum([n]) == n && Sum([]) == 0
  {
    assert [n][..0] == [];
  }

  /** Turns that do not end the copy lose nothing. */
  predicate Complete(t: Turn) {
    !t.stop && t.wrote == |t.read| && (t.read != [] ==> !t.writeFails)
  }

  /**
   * Faithfulness, for every script of turns: the bytes accepted are a prefix of the bytes delivered, the
   * reports add up to them, and only what the last turn failed to write can be missing.
   */
  lemma {:induction false} CopyIsFaithful(turns: seq<Turn>, bufSize: nat)
    requires Possible(turns, bufSize)
    ensures var c := Copy(turns);
      && c.accepted <= c.delivered
      && Sum(c.reports) == |c.accepted|
      && (c.end != WriteFailed && c.end != ShortWrite ==> c.accepted == c.delivered)
      && |c.delivered| - |c.accepted| <= bufSize
    decreases |turns|
  {
    if turns != [] && !turns[0].stop {
      var t := turns[0];
      SumOne(t.wrote);
      assert t.read[..|t.read|] == t.read;
      if EndOf(t) == Running {
        var rest := Copy(turns[1..]);
        CopyIsFaithful(turns[1..], bufSize);
        SumConcat(if t.read != [] && t.wrote > 0 then [t.wrote] else [], rest.reports);
        assert t.read + rest.delivered == t.read + rest.accepted + rest.delivered[|rest.accepted|..];
      }
    }
  }

  /** This turn does not end the copy: no stop, all that was read is written, and there is more. */
  predicate CarriesOn(t: Turn) {
    !t.stop && t.readEnd == More && (t.read != [] ==> !t.writeFails && t.wrote == |t.read|)
  }

  function Reads(turns: seq<Turn>): seq<Byte> {
    if turns == [] then [] else turns[0].read + Reads(turns[1..])
  }

  function Writes(turns: seq<Turn>): seq<nat> {
    if turns == [] then [] else (if turns[0].wrote > 0 then [turns[0].wrote] else []) + Writes(turns[1..])
  }

  /** A turn that reads and does not carry on: the first of a failed write, a short write, a failed read and the end of file. */
  function HowEnded(t: Turn): End {
    if t.read == [] || (!t.writeFails && t.wrote == |t.read|) then (if t.readEnd == EndOfFile then Finished else ReadFailed)
    else if t.writeFails then WriteFailed
    else ShortWrite
  }

  /** All turns before `k` carried on and were copied whole; turn `k`, if there is one, got as far as it says. */
  ghost function UpTo(turns: seq<Turn>, k: nat): Copied
    requires k <= |turns|
  {
    var before := turns[..k];
    if k == |turns| then Copied(Reads(before), Reads(before), Writes(before), Running)
    else if turns[k].stop then Copied(Reads(before), Reads(before), Writes(before), Stopped)
    else
      var t := turns[k];
      var wrote := if t.wrote <= |t.read| then t.wrote else |t.read|;
      Copied(Reads(before) + t.read, Reads(before) + t.read[..wrote], Writes(before) + (if wrote > 0 then [wrote] else []), HowEnded(t))
  }

  /**
   * Where the copy ends and how: at the first turn that does not carry on, in the way that turn says, with
   * everything read, written and reported until then.
   */
  lemma {:induction false} EndsExactly(turns: seq<Turn>, bufSize: nat) returns (k: nat)
    requires Possible(turns, bufSize)
    ensures k <= |turns| && (forall i :: 0 <= i < k ==> CarriesOn(turns[i])) && (k < |turns| ==> !CarriesOn(turns[k]))
    ensures Copy(turns) == UpTo(turns, k)
    ensures Copy(turns).end == Running <==> k == |turns|
    ensures Copy(turns).end == Stopped <==> k < |turns| && turns[k].stop
    ensures Copy(turns).end == WriteFailed <==> k < |turns| && !turns[k].stop && turns[k].read != [] && turns[k].writeFails
    ensures Copy(turns).end == ShortWrite <==> k < |turns| && !turns[k].stop && !turns[k].writeFails && turns[k].wrote < |turns[k].read|
    ensures Copy(turns).end == ReadFailed <==> k < |turns| && Complete(turns[k]) && turns[k].readEnd == Broken
    ensures Copy(turns).end == Finished <==> k < |turns| && Complete(turns[k]) && turns[k].readEnd == EndOfFile
    decreases |turns|
  {
    k := 0;
    if turns != [] {
      var t, rest := turns[0], turns[1..];
      if CarriesOn(t) {
        var j := EndsExactly(rest, bufSize);
        k := j + 1;
        assert forall i :: 0 < i < |turns| ==> turns[i] == rest[i - 1];
        OneFurther(turns, j);
        CarriedOn(turns);
      } else {
        EndsHere(turns, bufSize);
      }
    }
  }

  lemma EndsHere(turns: seq<Turn>, bufSize: nat)
    requires turns != [] && !CarriesOn(turns[0]) && Possible(turns, bufSize)
    ensures Copy(turns) == UpTo(turns, 0)
  {
    assert turns[..0] == [];
    assert turns[0].wrote <= |turns[0].read|;
  }

  lemma CarriedOn(turns: seq<Turn>)
    requires turns != [] && CarriesOn(turns[0]) && turns[0].wrote <= |turns[0].read|
    ensures var t, c := turns[0], Copy(turns[1..]);
      Copy(turns) == Copied(t.read + c.delivered, t.read + c.accepted, (if t.wrote > 0 then [t.wrote] else []) + c.reports, c.end)
  {
    assert turns[0].read[..|turns[0].read|] == turns[0].read;
  }

  lemma OneFurther(turns: seq<Turn>, j: nat)
    requires turns != [] && j < |turns|
    ensures var t, c := turns[0], UpTo(turns[1..], j);
      UpTo(turns, j + 1) == Copied(t.read + c.delivered, t.read + c.accepted, (if t.wrote > 0 then [t.wrote] else []) + c.reports, c.end)
  {
    var before := turns[..j + 1];
    assert before[0] == turns[0] && before[1..] == turns[1..][..j];
  }

  /** End of file at turn `k`, with every delivered byte written up to and including that turn. */
  ghost predicate CleanEnd(turns: seq<Turn>, k: int) {
    && 0 <= k < |turns| && turns[k].readEnd == EndOfFile && Complete(turns[k])
    && forall i :: 0 <= i < k ==> turns[i].readEnd == More && Complete(turns[i])
  }

  lemma CleanEndLater(turns: seq<Turn>, k: nat)
    requires turns != []
    ensures CleanEnd(turns, k + 1) <==> turns[0].readEnd == More && Complete(turns[0]) && CleanEnd(turns[1..], k)
  {
    var rest := turns[1..];
    if turns[0].readEnd == More && Complete(turns[0]) && CleanEnd(rest, k) {
      forall i | 0 <= i < k + 1 ensures turns[i].readEnd == More && Complete(turns[i]) {
        if i > 0 { assert turns[i] == rest[i - 1]; }
      }
    }
    if CleanEnd(turns, k + 1) {
      forall i | 0 <= i < k ensures rest[i].readEnd == More && Complete(rest[i]) {
        assert rest[i] == turns[i + 1];
      }
    }
  }

  /** The error is nil exactly when every turn before the end of file was complete, and so was that one. */
  lemma {:induction false} NilErrorExactly(turns: seq<Turn>, bufSize: nat)
    requires Possible(turns, bufSize)
    ensures Copy(turns).end == Finished <==> exists k :: CleanEnd(turns, k)
    decreases |turns|
  {
    if turns == [] {
      return;
    }
    var t, rest := turns[0], turns[1..];
    NilErrorExactly(rest, bufSize);
    if Copy(turns).end == Finished {
      if EndOf(t) == Running {
        var k :| CleanEnd(rest, k);
        CleanEndLater(turns, k);
      } else {
        assert CleanEnd(turns, 0);
      }
    }
    if k :| CleanEnd(turns, k) {
      if k > 0 {
        CleanEndLater(turns, k - 1);
      }
    }
  }

  // ---------------------------------------------------------------- the loop

  class Source {
    ghost var delivered: seq<Byte>

    constructor ()
      ensures delivered == []
    {
      delivered := [];
    }

    method Read(buf: array<Byte>, t: Turn) returns (nr: nat, end: ReadEnd)
      requires |t.read| <= buf.Length
      modifies this, buf
      ensures nr == |t.read| && buf[..nr] == t.read && end == t.readEnd
      ensures delivered == old(delivered) + t.read
    {
      for i := 0 to |t.read|
        invariant buf[..i] == t.read[..i]
        invariant delivered == old(delivered)
      {
        buf[i] := t.read[i];
        assert buf[..i + 1] == buf[..i] + [t.read[i]];
      }
      nr, end := |t.read|, t.readEnd;
      delivered := delivered + t.read;
    }
  }

  class Sink {
    var accepted: seq<Byte>
    var reports: seq<nat>

    constructor ()
      ensures accepted == [] && reports == []
    {
      accepted, reports := [], [];
    }

    method Write(p: seq<Byte>, t: Turn) returns (nw: nat, failed: bool)
      requires t.wrote <= |p|
      modifies this`accepted
      ensures nw == t.wrote && failed == t.writeFails && accepted == old(accepted) + p[..nw]
    {
      nw, failed := t.wrote, t.writeFails;
      accepted := accepted + p[..nw];
    }

    /** `onCopied`. */
    method Report(n: nat)
      modifies this`reports
      ensures reports == old(reports) + [n]
    {
      reports := reports + [n];
    }
  }

  /** `copyBuffer`, over a script of turns. */
  method CopyBuffer(dst: Sink, src: Source, buf: array<Byte>, turns: seq<Turn>) returns (written: nat, end: End)
    requires Possible(turns, buf.Length)
    modifies dst, src, buf
    ensures var c := Copy(turns);
      && src.delivered == old(src.delivered) + c.delivered
      && dst.accepted == old(dst.accepted) + c.accepted
      && dst.reports == old(dst.reports) + c.reports
      && written == |c.accepted| && end == c.end
  {
    written := 0;
    var k := 0;
    while k < |turns|
      invariant 0 <= k <= |turns|
      invariant var c := Copy(turns[k..]);
        && old(src.delivered) + Copy(turns).delivered == src.delivered + c.delivered
        && old(dst.accepted) + Copy(turns).accepted == dst.accepted + c.accepted
        && old(dst.reports) + Copy(turns).reports == dst.reports + c.reports
        && written + |c.accepted| == |Copy(turns).accepted| && c.end == Copy(turns).end
    {
      ghost var c, rest := Copy(turns[k..]), Copy(turns[k..][1..]);
      var t := turns[k];
      assert turns[k..][0] == t && turns[k..][1..] == turns[k + 1..];
      if t.stop {
        return written, Stopped;
      }
      ghost var delivered, accepted, reports := src.delivered, dst.accepted, dst.reports;
      var nr, er := src.Read(buf, t);
      if nr > 0 {
        var nw, failed := dst.Write(buf[..nr], t);
        if nw > 0 {
          written := written + nw;
          dst.Report(nw);
        }
        if failed {
          assert dst.reports == reports + c.reports;
          return written, WriteFailed;
        }
        if nr != nw {
          assert dst.reports == reports + c.reports;
          return written, ShortWrite;
        }
      }
      assert dst.accepted == accepted + t.read[..t.wrote] && t.read[..t.wrote] == t.read;
      if er != More {
        return written, if er == EndOfFile then Finished else ReadFailed;
      }
      TurnConcat(delivered, accepted, reports, t, rest);
      k := k + 1;
    }
    assert turns[k..] == [];
    end := Running;
  }

  lemma TurnConcat(delivered: seq<Byte>, accepted: seq<Byte>, reports: seq<nat>, t: Turn, rest: Copied)
    ensures delivered + (t.read + rest.delivered) == delivered + t.read + rest.delivered
    ensures accepted + (t.read + rest.accepted) == accepted + t.read + rest.accepted
    ensures reports + ([t.wrote] + rest.reports) == reports + [t.wrote] + rest.reports
    ensures reports + ([] + rest.reports) == reports + rest.reports
  {
    assert [] + rest.reports == rest.reports;
  }

  /** `pipeBuffer`: the buffer comes from the pool, is used within its capacity, and goes back. */
  method PipeBuffer(pool: Pools.Pool, dst: Sink, src: Source, requested: int, turns: seq<Turn>, fromPool: bool) returns (end: End, ghost pooled: Pools.Buffer)
    requires pool.Valid() && Possible(turns, PipeSize(requested))
    modifies pool, pool.Free(), dst, src
    ensures pool.Valid() && pool.Free() == old(pool.Free()) + {pooled} && PipeSize(requested) <= pooled.capacity
    ensures dst.accepted == old(dst.accepted) + Copy(turns).accepted && end == Copy(turns).end
  {
    hide Pools.Pool.Valid, Pools.Pool.Free, Copy, Possible;
    var bufSize := PipeSize(requested);
    var bufPtr := pool.Get(bufSize, fromPool);
    pooled := bufPtr;
    var buf := new Byte[bufSize];
    var written;
    written, end := CopyBuffer(dst, src, buf, turns);
    pool.Put(bufPtr);
  }
}
