/**
 * The buffer pool and the objects that take from it and give back: frames, their idempotent release
 * through `SafeFrame`, the payload part of `ReadFrame`, and the copy loop of a pipe.
 */
module BufferPool {
  import opened Collections
  import opened BufferOwnership
  import FrameCodec

  /** A pooled `*[]byte`: a fixed capacity, and the length of the slice it points to. */
  class Buffer {
    const capacity: nat
    var length: nat

    constructor (capacity: nat)
      ensures this.capacity == capacity && length == capacity
    {
      this.capacity, length := capacity, capacity;
    }
  }

  class Pool {
    var small: seq<Buffer>
    var medium: seq<Buffer>
    var large: seq<Buffer>
    var xlarge: seq<Buffer>

    /** Each class holds buffers of exactly its capacity, each once. */
    ghost predicate Valid()
      reads this
    {
      && Holds(small, SIZE_SMALL) && Holds(medium, SIZE_MEDIUM) && Holds(large, SIZE_LARGE) && Holds(xlarge, SIZE_XLARGE)
    }

    ghost function Free(): set<Buffer>
      reads this
    {
      (set b | b in small) + (set b | b in medium) + (set b | b in large) + (set b | b in xlarge)
    }

    constructor ()
      ensures Valid() && Free() == {}
    {
      small, medium, large, xlarge := [], [], [], [];
    }

    /** `Get`: a buffer at least as large as the class allows; `fromPool` is whether the pool has kept one. */
    method Get(size: int, fromPool: bool) returns (buf: Buffer)
      requires Valid()
      modifies this
      ensures Valid() && buf !in Free() && Free() == old(Free()) - {buf}
      ensures buf.capacity == SizeOf(ClassFor(size)) && (size <= SIZE_XLARGE ==> size <= buf.capacity)
      ensures buf.capacity == if size <= 4096 then 4096 else if size <= 32768 then 32768 else if size <= 262144 then 262144 else 1048576
      ensures fresh(buf) || buf in old(Free())
      ensures var kept := if size <= 4096 then old(small) else if size <= 32768 then old(medium) else if size <= 262144 then old(large) else old(xlarge);
        if fromPool && kept != [] then buf in kept else fresh(buf)
    {
      if size <= SIZE_SMALL {
        small, buf := TakeOrMake(small, SIZE_SMALL, fromPool);
      } else if size <= SIZE_MEDIUM {
        medium, buf := TakeOrMake(medium, SIZE_MEDIUM, fromPool);
      } else if size <= SIZE_LARGE {
        large, buf := TakeOrMake(large, SIZE_LARGE, fromPool);
      } else {
        xlarge, buf := TakeOrMake(xlarge, SIZE_XLARGE, fromPool);
      }
    }

    /** One `sync.Pool`: a buffer it has kept, or a new one. */
    static method TakeOrMake(list: seq<Buffer>, capacity: nat, fromPool: bool) returns (rest: seq<Buffer>, buf: Buffer)
      requires Holds(list, capacity)
      ensures Holds(rest, capacity) && buf.capacity == capacity
      ensures if fromPool && list != [] then buf in list else fresh(buf)
      ensures forall b :: b in rest <==> b in list && b != buf
    {
      if fromPool && list != [] {
        TakeLast(list, capacity);
        buf := list[|list| - 1];
        rest := list[..|list| - 1];
      } else {
        buf := new Buffer(capacity);
        rest := list;
      }
    }

    /** `Put`: restores the full slice and returns the buffer to the class of its exact capacity, if any. */
    method Put(buf: Buffer?)
      requires Valid() && (buf != null ==> buf !in Free())
      modifies this, buf
      ensures Valid()
      ensures buf != null ==> buf.length == buf.capacity
      ensures Free() == old(Free()) + if buf != null && ClassOf(buf.capacity).Some? then {buf} else {}
      ensures buf != null ==> (buf in Free() <==> buf.capacity == 4096 || buf.capacity == 32768 || buf.capacity == 262144 || buf.capacity == 1048576)
    {
      if buf == null {
        return;
      }
      buf.length := buf.capacity;
      if buf.capacity == SIZE_SMALL {
        small := small + [buf];
      } else if buf.capacity == SIZE_MEDIUM {
        medium := medium + [buf];
      } else if buf.capacity == SIZE_LARGE {
        large := large + [buf];
      } else if buf.capacity == SIZE_XLARGE {
        xlarge := xlarge + [buf];
      }
    }
  }

  ghost predicate Holds(list: seq<Buffer>, capacity: nat) {
    && (forall i :: 0 <= i < |list| ==> list[i].capacity == capacity)
    && (forall i, j :: 0 <= i < j < |list| ==> list[i] != list[j])
  }

  lemma TakeLast(list: seq<Buffer>, capacity: nat)
    requires Holds(list, capacity) && list != []
    ensures Holds(list[..|list| - 1], capacity) && list[|list| - 1].capacity == capacity
    ensures forall b :: b in list[..|list| - 1] <==> b in list && b != list[|list| - 1]
  {
    assert list == list[..|list| - 1] + [list[|list| - 1]];
  }

  /** A frame as far as its payload buffer goes. */
  class Frame {
    var payloadLen: nat
    var poolBuffer: Buffer?
    var queuedBytes: int

    constructor (payloadLen: nat, poolBuffer: Buffer?)
      ensures this.payloadLen == payloadLen && this.poolBuffer == poolBuffer && queuedBytes == 0
    {
      this.payloadLen, this.poolBuffer, queuedBytes := payloadLen, poolBuffer, 0;
    }

    /** The payload slice is within its buffer, and the buffer is not free. */
    ghost predicate Owns(pool: Pool)
      reads this, pool
    {
      poolBuffer != null ==> poolBuffer !in pool.Free() && payloadLen <= poolBuffer.capacity && ClassOf(poolBuffer.capacity).Some?
    }

    /** `Release`: gives the buffer back the first time; any further call finds nothing to give. */
    method Release(pool: Pool)
      requires pool.Valid() && Owns(pool)
      modifies this, pool, poolBuffer
      ensures pool.Valid() && Owns(pool) && poolBuffer == null && queuedBytes == 0
      ensures pool.Free() == old(pool.Free()) + if old(poolBuffer) == null then {} else {old(poolBuffer)}
      ensures payloadLen == if old(poolBuffer) == null then old(payloadLen) else 0
    {
      if poolBuffer != null {
        pool.Put(poolBuffer);
        poolBuffer := null;
        payloadLen := 0;
      }
      queuedBytes := 0;
    }
  }

  class SafeFrame {
    const frame: Frame?
    var done: bool

    constructor (frame: Frame?)
      ensures this.frame == frame && !done
    {
      this.frame, done := frame, false;
    }

    /** `Close`: releases once. */
    method Close(pool: Pool)
      requires pool.Valid() && (frame != null ==> frame.Owns(pool))
      modifies this, frame, pool, if frame == null then null else frame.poolBuffer
      ensures pool.Valid() && done && (frame != null ==> frame.Owns(pool))
      ensures old(done) || frame == null ==> pool.Free() == old(pool.Free()) && (frame != null ==> frame.poolBuffer == old(frame.poolBuffer))
      ensures !old(done) && frame != null ==>
        && frame.poolBuffer == null
        && pool.Free() == old(pool.Free()) + if old(frame.poolBuffer) == null then {} else {old(frame.poolBuffer)}
    {
      if !done {
        done := true;
        if frame != null {
          frame.Release(pool);
        }
      }
    }
  }

  /**
   * The payload part of `ReadFrame`: a short read gives the buffer back, a full one hands it to the
   * frame; payloads above the large class do without the pool. `taken` is the buffer `Get` gave.
   */
  method ReadPayload(pool: Pool, payloadLen: nat, filled: bool, fromPool: bool) returns (frame: Frame?, ghost taken: Buffer?)
    requires pool.Valid() && payloadLen <= FrameCodec.MAX_FRAME_SIZE
    modifies pool, pool.Free()
    ensures pool.Valid()
    ensures frame == null <==> payloadLen > 0 && !filled
    ensures taken != null <==> 0 < payloadLen <= 262144
    ensures taken != null ==> fresh(taken) || taken in old(pool.Free())
    ensures taken != null ==> taken.capacity == if payloadLen <= 4096 then 4096 else if payloadLen <= 32768 then 32768 else 262144
    ensures frame == null ==> pool.Free() == old(pool.Free()) + if taken == null then {} else {taken}
    ensures frame != null ==> fresh(frame) && frame.payloadLen == payloadLen && frame.Owns(pool) && frame.poolBuffer == taken
    ensures frame != null ==> pool.Free() == old(pool.Free()) - if taken == null then {} else {taken}
  {
    taken := null;
    if payloadLen == 0 {
      frame := new Frame(0, null);
      return;
    }
    if payloadLen > SIZE_LARGE {
      if !filled {
        frame := null;
        return;
      }
      frame := new Frame(payloadLen, null);
      return;
    }
    var poolBuf := pool.Get(payloadLen, fromPool);
    taken := poolBuf;
    assert payloadLen <= poolBuf.capacity;
    if !filled {
      pool.Put(poolBuf);
      frame := null;
      return;
    }
    frame := new Frame(payloadLen, poolBuf);
  }
}
