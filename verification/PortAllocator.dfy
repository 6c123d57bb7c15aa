/** The port allocator: a reservation map over an inclusive range, probing for ports that can be bound. */
module PortAllocator {
  import opened Collections

  datatype Error = InvalidRange | OutsideRange | InUse | Unavailable | Exhausted

  predicate ValidRange(min: int, max: int) {
    0 < min < max <= 65535
  }

  /** `NewPortAllocator`'s check of the configured range. */
  method NewPortAllocator(min: int, max: int) returns (r: Result<Allocator, Error>)
    ensures r.Ok? <==> 0 < min < max <= 65535
    ensures r.Err? ==> r == Err(InvalidRange)
    ensures r.Ok? ==> fresh(r.value) && r.value.Valid() && r.value.used == {} && r.value.min == min && r.value.max == max
  {
    if min <= 0 || max <= 0 || min >= max || max > 65535 {
      return Err(InvalidRange);
    }
    var allocator := new Allocator(min, max);
    r := Ok(allocator);
  }

  /** The random source stays within the number of ports asked for. */
  ghost predicate DrawsFit(min: int, max: int, draws: nat -> Option<nat>) {
    forall i :: draws(i).Some? ==> draws(i).value < max - min + 1
  }

  /** `randomPort`: the minimum where the random source fails. */
  function RandomPort(min: int, max: int, draw: Option<nat>): (port: int)
    requires ValidRange(min, max) && (draw.Some? ==> draw.value < max - min + 1)
    ensures min <= port <= max
  {
    if draw.None? then min else min + draw.value
  }

  /** Every port of the range has one draw that gives it, and no two draws give the same. */
  lemma EveryPortHasADraw(min: int, max: int, port: int)
    requires ValidRange(min, max) && min <= port <= max
    ensures exists v: nat :: v < max - min + 1 && RandomPort(min, max, Some(v)) == port
    ensures forall v: nat, w: nat :: v < w < max - min + 1 ==> RandomPort(min, max, Some(v)) < RandomPort(min, max, Some(w))
    ensures RandomPort(min, max, None) == min
  {
    var v: nat := port - min;
    assert RandomPort(min, max, Some(v)) == port;
  }

  /** The attempt draws a port that is not reserved, and the probing listen succeeds. */
  ghost predicate Finds(min: int, max: int, used: set<int>, draws: nat -> Option<nat>, binds: (nat, int) -> bool, attempt: nat)
    requires ValidRange(min, max) && DrawsFit(min, max, draws)
  {
    var port := RandomPort(min, max, draws(attempt));
    port !in used && binds(attempt, port)
  }

  /** And it is the first to do so, among as many attempts as the range has ports. */
  ghost predicate FoundFirst(min: int, max: int, used: set<int>, draws: nat -> Option<nat>, binds: (nat, int) -> bool, attempt: nat)
    requires ValidRange(min, max) && DrawsFit(min, max, draws)
  {
    && attempt < max - min + 1 && Finds(min, max, used, draws, binds, attempt)
    && forall b: nat :: b < attempt ==> !Finds(min, max, used, draws, binds, b)
  }

  class Allocator {
    const min: int
    const max: int
    var used: set<int>

    ghost predicate Valid()
      reads this
    {
      ValidRange(min, max) && forall p :: p in used ==> min <= p <= max
    }

    constructor (min: int, max: int)
      requires ValidRange(min, max)
      ensures Valid() && used == {} && this.min == min && this.max == max
    {
      this.min, this.max, used := min, max, {};
    }

    /** `Allocate`: the port of the first attempt that finds one, out of as many as the range has ports. */
    method Allocate(draws: nat -> Option<nat>, binds: (nat, int) -> bool) returns (r: Result<int, Error>)
      requires Valid() && DrawsFit(min, max, draws)
      modifies this`used
      ensures Valid()
      ensures r.Ok? ==> exists a: nat :: FoundFirst(min, max, old(used), draws, binds, a) && r.value == RandomPort(min, max, draws(a))
      ensures r.Ok? ==> r.value !in old(used) && min <= r.value <= max && used == old(used) + {r.value}
      ensures r.Err? ==> forall a: nat :: !FoundFirst(min, max, old(used), draws, binds, a)
      ensures r.Err? ==> r == Err(Exhausted) && used == old(used)
    {
      var total := max - min + 1;
      for attempts := 0 to total
        invariant used == old(used) && forall a: nat :: a < attempts ==> !Finds(min, max, used, draws, binds, a)
      {
        var port := RandomPort(min, max, draws(attempts));
        if port in used {
          continue;
        }
        if !binds(attempts, port) {
          continue;
        }
        assert FoundFirst(min, max, used, draws, binds, attempts);
        used := used + {port};
        return Ok(port);
      }
      r := Err(Exhausted);
    }

    /** `AllocateSpecific`. */
    method AllocateSpecific(port: int, binds: bool) returns (r: Result<int, Error>)
      requires Valid()
      modifies this`used
      ensures Valid()
      ensures r == (if !(min <= port <= max) then Err(OutsideRange) else if port in old(used) then Err(InUse)
                    else if !binds then Err(Unavailable) else Ok(port))
      ensures used == if r.Ok? then old(used) + {port} else old(used)
    {
      if port < min || port > max {
        return Err(OutsideRange);
      }
      if port in used {
        return Err(InUse);
      }
      if !binds {
        return Err(Unavailable);
      }
      used := used + {port};
      r := Ok(port);
    }

    method Release(port: int)
      requires Valid()
      modifies this`used
      ensures Valid() && used == old(used) - {port}
    {
      used := used - {port};
    }
  }
}
