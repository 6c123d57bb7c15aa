/**
 * Who owns a pooled buffer: readers filling it, the frame it ends up in, a pipe, or one of the four
 * size classes of the pool.  Readers, releases of frames (by `SafeFrame.Close`, the writer's flush or
 * discard, or a plain `Release`, as often as they like) and pipes interleave freely.
 */
module BufferOwnership {
  import opened Collections
  import FrameCodec

  const SIZE_SMALL := 4 * 1024
  const SIZE_MEDIUM := 32 * 1024
  const SIZE_LARGE := 256 * 1024
  const SIZE_XLARGE := 1024 * 1024

  /** The classes of the pool. */
  datatype Class = Small | Medium | Large | XLarge

  function SizeOf(k: Class): nat {
    match k
    case Small => SIZE_SMALL
    case Medium => SIZE_MEDIUM
    case Large => SIZE_LARGE
    case XLarge => SIZE_XLARGE
  }

  /** The class `Get` serves a request from. */
  function ClassFor(size: int): Class {
    if size <= SIZE_SMALL then Small else if size <= SIZE_MEDIUM then Medium else if size <= SIZE_LARGE then Large else XLarge
  }

  /** The class `Put` returns a buffer to: only exact capacities go back. */
  function ClassOf(capacity: nat): Option<Class> {
    if capacity == SIZE_SMALL then Some(Small) else if capacity == SIZE_MEDIUM then Some(Medium)
    else if capacity == SIZE_LARGE then Some(Large) else if capacity == SIZE_XLARGE then Some(XLarge) else None
  }

  /** Requests are served from the smallest class that fits, and a buffer goes back to the class it came from. */
  lemma ClassesFit(size: int, k: Class)
    ensures size <= SIZE_XLARGE ==> size <= SizeOf(ClassFor(size))
    ensures size <= SizeOf(k) ==> SizeOf(ClassFor(size)) <= SizeOf(k)
    ensures ClassOf(SizeOf(k)) == Some(k)
    ensures size >= 0 && ClassOf(size) == Some(k) ==> SizeOf(k) == size
    ensures size >= 0 ==> (ClassOf(size).Some? <==> size == 4096 || size == 32768 || size == 262144 || size == 1048576)
    ensures SizeOf(ClassFor(size)) == if size <= 4096 then 4096 else if size <= 32768 then 32768 else if size <= 262144 then 262144 else 1048576
  {
  }

  /** `PipeWithCallbacksAndBufferSize`'s clamping of the requested size. */
  function PipeSize(requested: int): (size: nat)
    ensures 1 <= size <= SIZE_LARGE
    ensures 1 <= requested <= 262144 ==> size == requested
    ensures requested <= 0 ==> size == 32768
    ensures requested > 262144 ==> size == 262144
  {
    if requested <= 0 then SIZE_MEDIUM else if requested > SIZE_LARGE then SIZE_LARGE else requested
  }

  /** Someone using the first `len` bytes of a buffer. */
  datatype Holder = Reading(buffer: nat, len: nat) | Frame(pooled: Option<nat>, len: nat) | Piping(buffer: nat, len: nat) | Ended

  /** Buffers are numbered in order of creation; `capacities` has their sizes. */
  datatype State = State(capacities: seq<nat>, small: seq<nat>, medium: seq<nat>, large: seq<nat>, xlarge: seq<nat>, holders: seq<Holder>)

  const INITIAL := State([], [], [], [], [], [])

  /** `reuse` picks a free buffer of the class, or nothing if the pool makes a new one. */
  datatype Step =
    | StartRead(payloadLen: nat, reuse: Option<nat>) | FinishRead(h: nat, ok: bool)
    | Release(h: nat)
    | StartPipe(requested: int, reuse: Option<nat>) | EndPipe(h: nat)
    | Collect(k: Class, i: nat)

  function FreeIn(s: State, k: Class): seq<nat> {
    match k
    case Small => s.small
    case Medium => s.medium
    case Large => s.large
    case XLarge => s.xlarge
  }

  function WithFree(s: State, k: Class, free: seq<nat>): State {
    match k
    case Small => s.(small := free)
    case Medium => s.(medium := free)
    case Large => s.(large := free)
    case XLarge => s.(xlarge := free)
  }

  /** `Get`: a free buffer of the class, or a new one. */
  function Get(s: State, k: Class, reuse: Option<nat>): (State, nat) {
    if reuse.Some? && reuse.value < |FreeIn(s, k)| then
      (WithFree(s, k, Drop(FreeIn(s, k), reuse.value)), FreeIn(s, k)[reuse.value])
    else (s.(capacities := s.capacities + [SizeOf(k)]), |s.capacities|)
  }

  /** `Put`. */
  function Put(s: State, buffer: nat): State
    requires buffer < |s.capacities|
  {
    match ClassOf(s.capacities[buffer])
    case Some(k) => WithFree(s, k, FreeIn(s, k) + [buffer])
    case None => s
  }

  predicate Known(s: State, buffer: nat) {
    buffer < |s.capacities|
  }

  function Next(s: State, e: Step): State {
    match e
    case StartRead(payloadLen, reuse) =>
      if payloadLen > FrameCodec.MAX_FRAME_SIZE then s
      else if payloadLen == 0 || payloadLen > SIZE_LARGE then s.(holders := s.holders + [Frame(None, payloadLen)])
      else
        var (t, buffer) := Get(s, ClassFor(payloadLen), reuse);
        t.(holders := t.holders + [Reading(buffer, payloadLen)])
    case FinishRead(h, ok) =>
      if !(h < |s.holders| && s.holders[h].Reading? && Known(s, s.holders[h].buffer)) then s
      else if ok then s.(holders := s.holders[h := Frame(Some(s.holders[h].buffer), s.holders[h].len)])
      else Put(s.(holders := s.holders[h := Ended]), s.holders[h].buffer)
    case Release(h) =>
      if !(h < |s.holders| && s.holders[h].Frame? && s.holders[h].pooled.Some? && Known(s, s.holders[h].pooled.value)) then s
      else Put(s.(holders := s.holders[h := Frame(None, 0)]), s.holders[h].pooled.value)
    case StartPipe(requested, reuse) =>
      var (t, buffer) := Get(s, ClassFor(PipeSize(requested)), reuse);
      t.(holders := t.holders + [Piping(buffer, PipeSize(requested))])
    case EndPipe(h) =>
      if !(h < |s.holders| && s.holders[h].Piping? && Known(s, s.holders[h].buffer)) then s
      else Put(s.(holders := s.holders[h := Ended]), s.holders[h].buffer)
    case Collect(k, i) =>
      if i < |FreeIn(s, k)| then WithFree(s, k, Drop(FreeIn(s, k), i)) else s
  }

  function Run(steps: seq<Step>): State {
    if steps == [] then INITIAL else Next(Run(steps[..|steps| - 1]), steps[|steps| - 1])
  }

  lemma RunExtends(steps: seq<Step>, e: Step)
    ensures Run([]) == INITIAL && Run(steps + [e]) == Next(Run(steps), e)
  {
    assert (steps + [e])[..|steps|] == steps;
  }

  // ---------------------------------------------------------------- the invariant

  function HeldBy(h: Holder): Option<nat> {
    match h
    case Reading(buffer, _) => Some(buffer)
    case Frame(pooled, _) => pooled
    case Piping(buffer, _) => Some(buffer)
    case Ended => None
  }

  /** How many holders own the buffer. */
  ghost function Owners(holders: seq<Holder>, buffer: nat): nat {
    if holders == [] then 0
    else Owners(holders[..|holders| - 1], buffer) + if HeldBy(holders[|holders| - 1]) == Some(buffer) then 1 else 0
  }

  ghost function FreeCopies(s: State, buffer: nat): nat {
    Count(s.small, buffer) + Count(s.medium, buffer) + Count(s.large, buffer) + Count(s.xlarge, buffer)
  }

  /** A slice in use lies within its buffer. */
  predicate WithinCapacity(s: State, h: Holder) {
    HeldBy(h).Some? ==> Known(s, HeldBy(h).value) && ClassOf(s.capacities[HeldBy(h).value]).Some? && h.len <= s.capacities[HeldBy(h).value]
  }

  /** All the buffers of a free list have exactly this capacity. */
  predicate Fit(capacities: seq<nat>, free: seq<nat>, size: nat) {
    forall b :: b in free ==> b < |capacities| && capacities[b] == size
  }

  predicate RightClasses(s: State) {
    && Fit(s.capacities, s.small, SIZE_SMALL) && Fit(s.capacities, s.medium, SIZE_MEDIUM)
    && Fit(s.capacities, s.large, SIZE_LARGE) && Fit(s.capacities, s.xlarge, SIZE_XLARGE)
  }

  ghost predicate OwnedOnce(s: State, buffer: nat) {
    && FreeCopies(s, buffer) + Owners(s.holders, buffer) <= 1
    && (!Known(s, buffer) ==> FreeCopies(s, buffer) + Owners(s.holders, buffer) == 0)
  }

  ghost predicate Inv(s: State) {
    && (forall buffer: nat :: OwnedOnce(s, buffer))
    && RightClasses(s)
    && forall i :: 0 <= i < |s.holders| ==> WithinCapacity(s, s.holders[i])
  }

  // ---------------------------------------------------------------- counting

  lemma {:induction false} OwnersUpdate(holders: seq<Holder>, i: nat, h: Holder, buffer: nat)
    requires i < |holders|
    ensures Owners(holders[i := h], buffer) == Owners(holders, buffer)
              - (if HeldBy(holders[i]) == Some(buffer) then 1 else 0) + if HeldBy(h) == Some(buffer) then 1 else 0
  {
    var n := |holders| - 1;
    if i == n {
      assert holders[i := h][..n] == holders[..n];
    } else {
      assert holders[i := h][..n] == holders[..n][i := h];
      OwnersUpdate(holders[..n], i, h, buffer);
    }
  }

  lemma OwnersAppend(holders: seq<Holder>, h: Holder, buffer: nat)
    ensures Owners(holders + [h], buffer) == Owners(holders, buffer) + if HeldBy(h) == Some(buffer) then 1 else 0
  {
    assert (holders + [h])[..|holders|] == holders;
  }

  lemma {:induction false} OwnersIn(holders: seq<Holder>, i: nat, buffer: nat)
    requires i < |holders| && HeldBy(holders[i]) == Some(buffer)
    ensures Owners(holders, buffer) >= 1
    ensures forall j :: 0 <= j < |holders| && j != i && HeldBy(holders[j]) == Some(buffer) ==> Owners(holders, buffer) >= 2
  {
    OwnersUpdate(holders, i, Ended, buffer);
    var rest := holders[i := Ended];
    forall j | 0 <= j < |holders| && j != i && HeldBy(holders[j]) == Some(buffer) ensures Owners(holders, buffer) >= 2 {
      assert HeldBy(rest[j]) == Some(buffer);
      OwnersUpdate(rest, j, Ended, buffer);
    }
  }

  lemma CountDrop(free: seq<nat>, i: nat, buffer: nat)
    requires i < |free|
    ensures Count(Drop(free, i), buffer) == Count(free, buffer) - if free[i] == buffer then 1 else 0
  {
    assert free == free[..i] + [free[i]] + free[i + 1..];
    CountConcat(free[..i] + [free[i]], free[i + 1..], buffer);
    CountAppend(free[..i], free[i], buffer);
    CountConcat(free[..i], free[i + 1..], buffer);
  }

  // ---------------------------------------------------------------- every step keeps it

  /** Taking a free buffer out leaves it without an owner. */
  lemma TakeOut(s: State, k: Class, i: nat)
    requires Inv(s) && i < |FreeIn(s, k)|
    ensures var t, taken := WithFree(s, k, Drop(FreeIn(s, k), i)), FreeIn(s, k)[i];
      && Inv(t) && Known(t, taken) && t.capacities[taken] == SizeOf(k)
      && FreeCopies(t, taken) + Owners(t.holders, taken) == 0
  {
    hide Count, Owners, WithinCapacity;
    var t, taken := WithFree(s, k, Drop(FreeIn(s, k), i)), FreeIn(s, k)[i];
    assert taken in FreeIn(s, k);
    assert Known(s, taken) && s.capacities[taken] == SizeOf(k);
    forall buffer: nat ensures FreeCopies(t, buffer) == FreeCopies(s, buffer) - if buffer == taken then 1 else 0 {
      CountDrop(FreeIn(s, k), i, buffer);
    }
    forall buffer: nat ensures OwnedOnce(t, buffer) {
      assert OwnedOnce(s, buffer);
    }
    assert OwnedOnce(s, taken);
    RightClassDrop(s, k, i);
    forall j | 0 <= j < |t.holders| ensures WithinCapacity(t, t.holders[j]) {
      SameCapacities(s, t, t.holders[j]);
      assert WithinCapacity(s, s.holders[j]);
    }
  }

  lemma RightClassDrop(s: State, k: Class, i: nat)
    requires RightClasses(s) && i < |FreeIn(s, k)|
    ensures RightClasses(WithFree(s, k, Drop(FreeIn(s, k), i)))
  {
    forall b | b in Drop(FreeIn(s, k), i) ensures b in FreeIn(s, k) {
    }
  }

  /** What `Get` hands out belongs to nobody. */
  lemma GetIsFresh(s: State, k: Class, reuse: Option<nat>)
    requires Inv(s)
    ensures var (t, buffer) := Get(s, k, reuse);
      && Inv(t) && t.holders == s.holders && Known(t, buffer) && t.capacities[buffer] == SizeOf(k)
      && FreeCopies(t, buffer) + Owners(t.holders, buffer) == 0
  {
    hide Count, Owners, Drop;
    if reuse.Some? && reuse.value < |FreeIn(s, k)| {
      TakeOut(s, k, reuse.value);
    } else {
      var t := s.(capacities := s.capacities + [SizeOf(k)]);
      assert OwnedOnce(s, |s.capacities|);
      forall buffer: nat ensures OwnedOnce(t, buffer) && FreeCopies(t, buffer) == FreeCopies(s, buffer) {
        assert OwnedOnce(s, buffer);
      }
      forall i | 0 <= i < |t.holders| ensures WithinCapacity(t, t.holders[i]) {
        assert WithinCapacity(s, s.holders[i]);
      }
    }
  }

  /** A buffer that belongs to nobody gets an owner. */
  lemma HoldKeeps(s: State, h: Holder)
    requires Inv(s) && WithinCapacity(s, h)
    requires HeldBy(h).Some? ==> FreeCopies(s, HeldBy(h).value) + Owners(s.holders, HeldBy(h).value) == 0
    ensures Inv(s.(holders := s.holders + [h]))
  {
    hide Count, Owners, WithinCapacity;
    var t := s.(holders := s.holders + [h]);
    forall buffer: nat ensures OwnedOnce(t, buffer) {
      assert OwnedOnce(s, buffer);
      assert FreeCopies(t, buffer) == FreeCopies(s, buffer);
      OwnersAppend(s.holders, h, buffer);
      WithinIsKnown(s, h);
    }
    forall i | 0 <= i < |t.holders| ensures WithinCapacity(t, t.holders[i]) {
      SameCapacities(s, t, t.holders[i]);
    }
  }

  lemma WithinIsKnown(s: State, h: Holder)
    requires WithinCapacity(s, h)
    ensures HeldBy(h).Some? ==> Known(s, HeldBy(h).value)
  {
  }

  lemma SameCapacities(s: State, t: State, h: Holder)
    requires t.capacities == s.capacities
    ensures WithinCapacity(t, h) <==> WithinCapacity(s, h)
  {
  }

  /** A holder passes its buffer on to what it becomes, or lets go of it. */
  lemma PassOn(s: State, i: nat, h: Holder)
    requires Inv(s) && i < |s.holders| && (HeldBy(h) == HeldBy(s.holders[i]) || HeldBy(h).None?) && WithinCapacity(s, h)
    ensures var t := s.(holders := s.holders[i := h]);
      && Inv(t)
      && (HeldBy(h).None? && HeldBy(s.holders[i]).Some? ==>
            var buffer := HeldBy(s.holders[i]).value;
            Known(t, buffer) && FreeCopies(t, buffer) + Owners(t.holders, buffer) == 0)
  {
    hide Count, Owners, WithinCapacity;
    var t := s.(holders := s.holders[i := h]);
    assert WithinCapacity(s, s.holders[i]);
    WithinIsKnown(s, s.holders[i]);
    forall buffer: nat ensures OwnedOnce(t, buffer)
                          && FreeCopies(t, buffer) == FreeCopies(s, buffer)
                          && (HeldBy(h).None? && HeldBy(s.holders[i]) == Some(buffer) ==> FreeCopies(t, buffer) + Owners(t.holders, buffer) == 0) {
      assert OwnedOnce(s, buffer);
      OwnersUpdate(s.holders, i, h, buffer);
    }
    forall j | 0 <= j < |t.holders| ensures WithinCapacity(t, t.holders[j]) {
      SameCapacities(s, t, t.holders[j]);
      assert j != i ==> WithinCapacity(s, s.holders[j]);
    }
  }

  /** A buffer that belongs to nobody goes back to the class of its capacity. */
  lemma PutKeeps(s: State, buffer: nat)
    requires Inv(s) && Known(s, buffer) && FreeCopies(s, buffer) + Owners(s.holders, buffer) == 0
    ensures Inv(Put(s, buffer)) && Put(s, buffer).holders == s.holders
    ensures ClassOf(s.capacities[buffer]).Some? ==> FreeCopies(Put(s, buffer), buffer) == 1
  {
    hide Count, Owners, WithinCapacity, RightClasses;
    var t := Put(s, buffer);
    if ClassOf(s.capacities[buffer]).Some? {
      var k := ClassOf(s.capacities[buffer]).value;
      CountAppend(FreeIn(s, k), buffer, buffer);
      forall b: nat ensures OwnedOnce(t, b) {
        assert OwnedOnce(s, b);
        CountAppend(FreeIn(s, k), buffer, b);
      }
      forall i | 0 <= i < |t.holders| ensures WithinCapacity(t, t.holders[i]) {
        SameCapacities(s, t, t.holders[i]);
        assert WithinCapacity(s, s.holders[i]);
      }
      RightClassAdd(s, k, buffer);
    }
  }

  lemma RightClassAdd(s: State, k: Class, buffer: nat)
    requires RightClasses(s) && Known(s, buffer) && s.capacities[buffer] == SizeOf(k)
    ensures RightClasses(WithFree(s, k, FreeIn(s, k) + [buffer]))
  {
  }

  lemma NextKeeps(s: State, e: Step)
    requires Inv(s)
    ensures Inv(Next(s, e))
  {
    hide Inv, Get, Put, FreeCopies, Owners;
    match e
    case StartRead(payloadLen, reuse) =>
      if payloadLen <= FrameCodec.MAX_FRAME_SIZE {
        if payloadLen == 0 || payloadLen > SIZE_LARGE {
          HoldKeeps(s, Frame(None, payloadLen));
        } else {
          GetIsFresh(s, ClassFor(payloadLen), reuse);
          var (t, buffer) := Get(s, ClassFor(payloadLen), reuse);
          HoldKeeps(t, Reading(buffer, payloadLen));
        }
      }
    case FinishRead(h, ok) =>
      if h < |s.holders| && s.holders[h].Reading? && Known(s, s.holders[h].buffer) {
        HolderWithin(s, h);
        if ok {
          PassOn(s, h, Frame(Some(s.holders[h].buffer), s.holders[h].len));
        } else {
          PassOn(s, h, Ended);
          PutKeeps(s.(holders := s.holders[h := Ended]), s.holders[h].buffer);
        }
      }
    case Release(h) =>
      if h < |s.holders| && s.holders[h].Frame? && s.holders[h].pooled.Some? && Known(s, s.holders[h].pooled.value) {
        PassOn(s, h, Frame(None, 0));
        PutKeeps(s.(holders := s.holders[h := Frame(None, 0)]), s.holders[h].pooled.value);
      }
    case StartPipe(requested, reuse) =>
      GetIsFresh(s, ClassFor(PipeSize(requested)), reuse);
      var (t, buffer) := Get(s, ClassFor(PipeSize(requested)), reuse);
      HoldKeeps(t, Piping(buffer, PipeSize(requested)));
    case EndPipe(h) =>
      if h < |s.holders| && s.holders[h].Piping? && Known(s, s.holders[h].buffer) {
        PassOn(s, h, Ended);
        PutKeeps(s.(holders := s.holders[h := Ended]), s.holders[h].buffer);
      }
    case Collect(k, i) =>
      if i < |FreeIn(s, k)| { TakeOut(s, k, i); }
  }

  lemma HolderWithin(s: State, h: nat)
    requires Inv(s) && h < |s.holders|
    ensures WithinCapacity(s, s.holders[h])
  {
  }

  lemma {:induction false} OwnershipRuns(steps: seq<Step>)
    ensures Inv(Run(steps))
  {
    hide Next;
    if steps == [] {
      forall buffer: nat ensures OwnedOnce(INITIAL, buffer) {
      }
    } else {
      OwnershipRuns(steps[..|steps| - 1]);
      NextKeeps(Run(steps[..|steps| - 1]), steps[|steps| - 1]);
    }
  }

  /**
   * On every run each buffer is free once, in the class of its exact capacity, or owned by one live
   * holder, and never both; and every slice in use lies within its buffer.
   */
  lemma BuffersOwnedOnce(steps: seq<Step>)
    ensures var s := Run(steps); forall b: nat :: FreeCopies(s, b) + Owners(s.holders, b) <= 1
    ensures var s := Run(steps); forall k, b :: b in FreeIn(s, k) ==> Known(s, b) && s.capacities[b] == SizeOf(k)
    ensures var s := Run(steps); forall i :: 0 <= i < |s.holders| && HeldBy(s.holders[i]).Some? ==>
      && Known(s, HeldBy(s.holders[i]).value) && s.holders[i].len <= s.capacities[HeldBy(s.holders[i]).value]
      && FreeCopies(s, HeldBy(s.holders[i]).value) == 0
      && forall j :: 0 <= j < |s.holders| && j != i ==> HeldBy(s.holders[j]) != HeldBy(s.holders[i])
  {
    hide Run, Owners, Count;
    OwnershipRuns(steps);
    var s := Run(steps);
    forall b: nat ensures FreeCopies(s, b) + Owners(s.holders, b) <= 1 {
      assert OwnedOnce(s, b);
    }
    forall i | 0 <= i < |s.holders| && HeldBy(s.holders[i]).Some?
      ensures Known(s, HeldBy(s.holders[i]).value) && s.holders[i].len <= s.capacities[HeldBy(s.holders[i]).value]
      ensures FreeCopies(s, HeldBy(s.holders[i]).value) == 0
      ensures forall j :: 0 <= j < |s.holders| && j != i ==> HeldBy(s.holders[j]) != HeldBy(s.holders[i]) {
      assert WithinCapacity(s, s.holders[i]);
      OwnersIn(s.holders, i, HeldBy(s.holders[i]).value);
      assert OwnedOnce(s, HeldBy(s.holders[i]).value);
    }
  }

  /** The holder that a step makes let go of its buffer. */
  predicate LetsGo(s: State, e: Step, h: nat) {
    && h < |s.holders| && HeldBy(s.holders[h]).Some?
    && ((e == FinishRead(h, false) && s.holders[h].Reading?) || (e == Release(h) && s.holders[h].Frame?) || (e == EndPipe(h) && s.holders[h].Piping?))
  }

  /** A short read, a release and the end of a pipe each make the buffer free, and take it from nobody else. */
  lemma GivenBack(steps: seq<Step>, e: Step, h: nat)
    requires LetsGo(Run(steps), e, h)
    ensures var s := Run(steps); var t, buffer := Next(s, e), HeldBy(s.holders[h]).value;
      && FreeCopies(t, buffer) == 1 && Owners(t.holders, buffer) == 0
      && |t.holders| == |s.holders| && forall j :: 0 <= j < |s.holders| && j != h ==> t.holders[j] == s.holders[j]
  {
    hide Run, FreeCopies, Owners, Put;
    OwnershipRuns(steps);
    LettingGo(Run(steps), e, h);
  }

  lemma LettingGo(s: State, e: Step, h: nat)
    requires Inv(s) && LetsGo(s, e, h)
    ensures var t, buffer := Next(s, e), HeldBy(s.holders[h]).value;
      && FreeCopies(t, buffer) == 1 && Owners(t.holders, buffer) == 0
      && |t.holders| == |s.holders| && forall j :: 0 <= j < |s.holders| && j != h ==> t.holders[j] == s.holders[j]
  {
    hide Inv, Owners, FreeCopies, Put;
    var buffer := HeldBy(s.holders[h]).value;
    HolderWithin(s, h);
    var after := if e.Release? then Frame(None, 0) else Ended;
    var u := s.(holders := s.holders[h := after]);
    PassOn(s, h, after);
    PutKeeps(u, buffer);
    OwnedSum(Put(u, buffer), buffer);
  }

  lemma OwnedSum(s: State, buffer: nat)
    requires Inv(s)
    ensures FreeCopies(s, buffer) + Owners(s.holders, buffer) <= 1
  {
    assert OwnedOnce(s, buffer);
  }

  // ---------------------------------------------------------------- one buffer from end to end

  /** `b` serves a request for `len` bytes: the smallest size that fits, reused if a free one was picked, and new otherwise. */
  ghost predicate Serves(s: State, t: State, len: nat, reuse: Option<nat>, b: nat) {
    var free := if len <= 4096 then s.small else if len <= 32768 then s.medium else s.large;
    && b < |t.capacities| && t.capacities[b] == (if len <= 4096 then 4096 else if len <= 32768 then 32768 else 262144)
    && if reuse.Some? && reuse.value < |free| then b == free[reuse.value] && t.capacities == s.capacities
       else b == |s.capacities| && |t.capacities| == |s.capacities| + 1
  }

  /** Reading a payload: refused above 1 MiB, unpooled when empty or above 256 KiB, and else into a pooled buffer. */
  lemma ReadStartsExactly(s: State, len: nat, reuse: Option<nat>)
    requires Inv(s)
    ensures var t := Next(s, StartRead(len, reuse));
      && (len > 1048576 ==> t == s)
      && (len == 0 || 262144 < len <= 1048576 ==> t == s.(holders := s.holders + [Frame(None, len)]))
      && (0 < len <= 262144 ==> exists b :: t.holders == s.holders + [Reading(b, len)] && Serves(s, t, len, reuse, b))
  {
    hide Owners, Count;
    if 0 < len <= 262144 {
      GetIsFresh(s, ClassFor(len), reuse);
      var (u, b) := Get(s, ClassFor(len), reuse);
      assert Next(s, StartRead(len, reuse)) == u.(holders := u.holders + [Reading(b, len)]);
      assert Serves(s, Next(s, StartRead(len, reuse)), len, reuse, b);
    }
  }

  /** A pipe takes a buffer of the size asked for, 32 KiB by default and 256 KiB at most. */
  lemma PipeStartsExactly(s: State, requested: int, reuse: Option<nat>)
    requires Inv(s)
    ensures var t := Next(s, StartPipe(requested, reuse));
      var len := if requested <= 0 then 32768 else if requested > 262144 then 262144 else requested;
      exists b :: t.holders == s.holders + [Piping(b, len)] && Serves(s, t, len, reuse, b)
  {
    hide Owners, Count;
    var len := PipeSize(requested);
    GetIsFresh(s, ClassFor(len), reuse);
    var (u, b) := Get(s, ClassFor(len), reuse);
    assert Next(s, StartPipe(requested, reuse)) == u.(holders := u.holders + [Piping(b, len)]);
    assert Serves(s, Next(s, StartPipe(requested, reuse)), len, reuse, b);
  }

  /** What was read becomes a frame that owns the buffer, and a second release of the frame does nothing. */
  lemma ReadBecomesFrame(s: State, h: nat)
    requires Inv(s) && h < |s.holders|
    ensures s.holders[h].Reading? ==>
              Next(s, FinishRead(h, true)) == s.(holders := s.holders[h := Frame(Some(s.holders[h].buffer), s.holders[h].len)])
    ensures s.holders[h].Frame? && s.holders[h].pooled.None? ==> Next(s, Release(h)) == s
    ensures s.holders[h].Frame? ==> Next(Next(s, Release(h)), Release(h)) == Next(s, Release(h))
  {
    hide Owners, Count, Put;
    HolderWithin(s, h);
    if s.holders[h].Frame? && s.holders[h].pooled.Some? {
      var u := s.(holders := s.holders[h := Frame(None, 0)]);
      PassOn(s, h, Frame(None, 0));
      PutKeeps(u, s.holders[h].pooled.value);
    }
  }

  /** A free buffer that is garbage collected is nowhere any more. */
  lemma CollectedIsGone(s: State, k: Class, i: nat)
    requires Inv(s) && i < |FreeIn(s, k)|
    ensures var t, buffer := Next(s, Collect(k, i)), FreeIn(s, k)[i];
      FreeCopies(t, buffer) == 0 && Owners(t.holders, buffer) == 0 && t.holders == s.holders && t.capacities == s.capacities
  {
    hide Inv, Owners, FreeCopies;
    TakeOut(s, k, i);
  }
}
