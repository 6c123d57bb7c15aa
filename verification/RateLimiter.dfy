/**
 * The fixed-window limiter for registrations: what it promises over any sliding window, and that
 * cleaning up expired entries never changes a decision.
 */
module RateLimiter {
  import opened Collections

  datatype Entry = Entry(count: int, windowEnd: int)

  /** The limit and the window length, in clock ticks. */
  datatype Config = Config(limit: int, window: nat)

  type Table = map<string, Entry>

  // ---------------------------------------------------------------- one call

  function Decide(c: Config, t: Table, ip: string, now: int): bool {
    ip == "" || ip !in t || now > t[ip].windowEnd || t[ip].count < c.limit
  }

  function Update(c: Config, t: Table, ip: string, now: int): Table {
    if ip == "" then t
    else if ip !in t || now > t[ip].windowEnd then t[ip := Entry(1, now + c.window)]
    else if t[ip].count >= c.limit then t
    else t[ip := Entry(t[ip].count + 1, t[ip].windowEnd)]
  }

  function Swept(t: Table, now: int): Table {
    map ip | ip in t && !(now > t[ip].windowEnd) :: t[ip]
  }

  class RateLimiter {
    const config: Config
    var rateLimits: Table

    constructor (config: Config)
      ensures this.config == config && rateLimits == map[]
    {
      this.config := config;
      rateLimits := map[];
    }

    method CheckAndIncrement(ip: string, now: int) returns (ok: bool)
      modifies this
      ensures ok == Decide(config, old(rateLimits), ip, now)
      ensures rateLimits == Update(config, old(rateLimits), ip, now)
      ensures var t := old(rateLimits);
        && (ok <==> ip == "" || ip !in t || now > t[ip].windowEnd || t[ip].count < config.limit)
        && (ip == "" || !ok ==> rateLimits == t)
        && (ip != "" && ok ==>
              rateLimits == t[ip := if ip !in t || now > t[ip].windowEnd then Entry(1, now + config.window) else Entry(t[ip].count + 1, t[ip].windowEnd)])
    {
      if ip == "" {
        return true;
      }
      if ip !in rateLimits || now > rateLimits[ip].windowEnd {
        rateLimits := rateLimits[ip := Entry(1, now + config.window)];
        return true;
      }
      var entry := rateLimits[ip];
      if entry.count >= config.limit {
        return false;
      }
      rateLimits := rateLimits[ip := entry.(count := entry.count + 1)];
      return true;
    }

    /** Visits the entries in any order and deletes the expired ones. */
    method Cleanup(now: int) returns (removed: nat)
      modifies this
      ensures rateLimits == Swept(old(rateLimits), now)
      ensures forall ip :: ip in rateLimits <==> ip in old(rateLimits) && old(rateLimits)[ip].windowEnd >= now
      ensures forall ip :: ip in rateLimits ==> rateLimits[ip] == old(rateLimits)[ip]
      ensures removed == |old(rateLimits)| - |rateLimits|
    {
      ghost var before := rateLimits;
      removed := 0;
      var todo := rateLimits.Keys;
      while todo != {}
        invariant todo <= before.Keys && rateLimits.Keys <= before.Keys
        invariant forall ip :: ip in rateLimits ==> rateLimits[ip] == before[ip]
        invariant forall ip :: ip in before ==> (ip in rateLimits <==> ip in todo || !(now > before[ip].windowEnd))
        invariant removed == |before| - |rateLimits|
        decreases |todo|
      {
        var ip :| ip in todo;
        todo := todo - {ip};
        if now > rateLimits[ip].windowEnd {
          assert rateLimits.Keys == (rateLimits - {ip}).Keys + {ip};
          rateLimits := rateLimits - {ip};
          removed := removed + 1;
        }
      }
    }
  }

  // ---------------------------------------------------------------- runs

  datatype Event = Check(ip: string) | Clean

  /** An event and the time the limiter's clock showed. */
  datatype Timed = Timed(event: Event, at: int)

  ghost predicate Monotone(es: seq<Timed>) {
    forall i, j :: 0 <= i < j < |es| ==> es[i].at <= es[j].at
  }

  function TableAfter(c: Config, es: seq<Timed>): Table {
    if es == [] then map[]
    else
      var t, e := TableAfter(c, es[..|es| - 1]), es[|es| - 1];
      match e.event
      case Check(ip) => Update(c, t, ip, e.at)
      case Clean => Swept(t, e.at)
  }

  /** How many checks of `ip` the run admits at times in [from, to]. */
  function AdmittedIn(c: Config, es: seq<Timed>, ip: string, from: int, to: int): nat {
    if es == [] then 0
    else
      var before, e := es[..|es| - 1], es[|es| - 1];
      AdmittedIn(c, before, ip, from, to)
      + if e.event == Check(ip) && Decide(c, TableAfter(c, before), ip, e.at) && from <= e.at <= to then 1 else 0
  }

  // ---------------------------------------------------------------- cleaning changes nothing

  /** The run with its cleanups left out. */
  function Checks(es: seq<Timed>): seq<Timed> {
    if es == [] then []
    else if es[|es| - 1].event.Clean? then Checks(es[..|es| - 1])
    else Checks(es[..|es| - 1]) + [es[|es| - 1]]
  }

  /** Two tables that agree on every entry still running at `now`. */
  ghost predicate AgreeFrom(t: Table, u: Table, now: int) {
    forall ip :: AgreeOn(t, u, now, ip)
  }

  ghost predicate AgreeOn(t: Table, u: Table, now: int, ip: string) {
    && (ip in t && t[ip].windowEnd >= now ==> ip in u && u[ip] == t[ip])
    && (ip in u && u[ip].windowEnd >= now ==> ip in t && t[ip] == u[ip])
  }

  lemma AgreeLater(t: Table, u: Table, now: int, later: int)
    requires AgreeFrom(t, u, now) && now <= later
    ensures AgreeFrom(t, u, later)
  {
    forall ip ensures AgreeOn(t, u, later, ip) {
      assert AgreeOn(t, u, now, ip);
    }
  }

  lemma AgreeDecide(c: Config, t: Table, u: Table, ip: string, now: int)
    requires AgreeFrom(t, u, now)
    ensures Decide(c, t, ip, now) == Decide(c, u, ip, now)
    ensures AgreeFrom(Update(c, t, ip, now), Update(c, u, ip, now), now)
  {
    assert AgreeOn(t, u, now, ip);
    var t', u' := Update(c, t, ip, now), Update(c, u, ip, now);
    forall other ensures AgreeOn(t', u', now, other) {
      assert AgreeOn(t, u, now, other);
    }
  }

  /** After a run and after the same run without cleanups, the tables agree from then on. */
  lemma {:induction false} CleanupInvisible(c: Config, es: seq<Timed>, now: int)
    requires Monotone(es) && forall i :: 0 <= i < |es| ==> es[i].at <= now
    ensures AgreeFrom(TableAfter(c, es), TableAfter(c, Checks(es)), now)
  {
    if es == [] {
    } else {
      var init, e := es[..|es| - 1], es[|es| - 1];
      CleanupInvisible(c, init, e.at);
      var t, u := TableAfter(c, init), TableAfter(c, Checks(init));
      match e.event {
        case Check(ip) =>
          AgreeDecide(c, t, u, ip, e.at);
          assert Checks(es)[..|Checks(init)|] == Checks(init);
          AgreeLater(TableAfter(c, es), TableAfter(c, Checks(es)), e.at, now);
        case Clean =>
          forall ip ensures AgreeOn(Swept(t, e.at), u, e.at, ip) {
            assert AgreeOn(t, u, e.at, ip);
          }
          AgreeLater(Swept(t, e.at), u, e.at, now);
      }
    }
  }

  /** Cleanup, at whatever times it runs, never changes the decision of a check. */
  lemma CleanupChangesNoDecision(c: Config, es: seq<Timed>, ip: string, now: int)
    requires Monotone(es) && forall i :: 0 <= i < |es| ==> es[i].at <= now
    ensures Decide(c, TableAfter(c, es), ip, now) == Decide(c, TableAfter(c, Checks(es)), ip, now)
  {
    CleanupInvisible(c, es, now);
    AgreeDecide(c, TableAfter(c, es), TableAfter(c, Checks(es)), ip, now);
  }

  // ---------------------------------------------------------------- the sliding-window bound

  /** One admission of an address: when, when its window began, and its place in that window. */
  datatype Admission = Admission(at: int, start: int, place: nat)

  /** The admissions of `ip`, in order. */
  function Admissions(c: Config, es: seq<Timed>, ip: string): seq<Admission> {
    if es == [] then []
    else
      var before := Admissions(c, es[..|es| - 1], ip);
      var t, e := TableAfter(c, es[..|es| - 1]), es[|es| - 1];
      if e.event != Check(ip) || !Decide(c, t, ip, e.at) then before
      else before + [NextAdmission(t, before, ip, e.at)]
  }

  function NextAdmission(t: Table, before: seq<Admission>, ip: string, now: int): (a: Admission)
    ensures a.at == now
  {
    if before == [] || ip !in t || now > t[ip].windowEnd then Admission(now, now, 0)
    else Admission(now, before[|before| - 1].start, before[|before| - 1].place + 1)
  }

  /** No window admits more than this. */
  function PerWindow(c: Config): nat {
    if c.limit < 1 then 1 else c.limit
  }

  /** What an admission says about itself and about the one before it. */
  ghost predicate WellPlacedAt(c: Config, adm: seq<Admission>, i: nat)
    requires i < |adm|
  {
    && adm[i].place < PerWindow(c)
    && (i == 0 ==> adm[i].place == 0)
    && (adm[i].place == 0 ==> adm[i].start == adm[i].at)
    && adm[i].start <= adm[i].at <= adm[i].start + c.window
    && (i > 0 && adm[i].place > 0 ==> adm[i].start == adm[i - 1].start && adm[i].place == adm[i - 1].place + 1)
    && (i > 0 && adm[i].place == 0 ==> adm[i].at > adm[i - 1].start + c.window)
    && (i > 0 ==> adm[i - 1].at <= adm[i].at)
  }

  ghost predicate WellPlaced(c: Config, adm: seq<Admission>) {
    forall i :: 0 <= i < |adm| ==> WellPlacedAt(c, adm, i)
  }

  lemma WellPlacedAppend(c: Config, adm: seq<Admission>, a: Admission)
    requires WellPlaced(c, adm) && WellPlacedAt(c, adm + [a], |adm|)
    ensures WellPlaced(c, adm + [a])
  {
    forall i | 0 <= i < |adm + [a]| ensures WellPlacedAt(c, adm + [a], i) {
      if i < |adm| {
        assert WellPlacedAt(c, adm, i);
      }
    }
  }

  /** The table entry of `ip` describes its last admission, unless that window is over. */
  ghost predicate EntryMatches(c: Config, t: Table, adm: seq<Admission>, ip: string, now: int) {
    && (ip in t ==> adm != [] && t[ip] == Entry(adm[|adm| - 1].place + 1, adm[|adm| - 1].start + c.window))
    && (ip !in t && adm != [] ==> now > adm[|adm| - 1].start + c.window)
    && (adm != [] ==> adm[|adm| - 1].at <= now)
  }

  /** One more event keeps the admissions in place and the entry in step with the last of them. */
  lemma AdmissionNext(c: Config, es: seq<Timed>, ip: string, adm: seq<Admission>, t: Table, now: int)
    requires es != [] && ip != "" && adm == Admissions(c, es[..|es| - 1], ip) && t == TableAfter(c, es[..|es| - 1])
    requires WellPlaced(c, adm) && EntryMatches(c, t, adm, ip, es[|es| - 1].at) && es[|es| - 1].at <= now
    ensures WellPlaced(c, Admissions(c, es, ip)) && EntryMatches(c, TableAfter(c, es), Admissions(c, es, ip), ip, now)
  {
    hide WellPlaced, WellPlacedAt, NextAdmission, EntryMatches, Update, Swept;
    var e := es[|es| - 1];
    if e.event == Check(ip) && Decide(c, t, ip, e.at) {
      var a := NextAdmission(t, adm, ip, e.at);
      AdmittedNext(c, t, adm, ip, e.at, now);
      WellPlacedAppend(c, adm, a);
    } else {
      OtherNext(c, t, adm, ip, e, now);
    }
  }

  /** Any other event leaves the entry of `ip` in step with its last admission. */
  lemma OtherNext(c: Config, t: Table, adm: seq<Admission>, ip: string, e: Timed, now: int)
    requires EntryMatches(c, t, adm, ip, e.at) && e.at <= now && !(e.event == Check(ip) && Decide(c, t, ip, e.at))
    ensures EntryMatches(c, match e.event case Check(other) => Update(c, t, other, e.at) case Clean => Swept(t, e.at), adm, ip, now)
  {
  }

  /** One more admission takes the next place in its window, or the first of a new one. */
  lemma AdmittedNext(c: Config, t: Table, adm: seq<Admission>, ip: string, at: int, now: int)
    requires WellPlaced(c, adm) && EntryMatches(c, t, adm, ip, at)
    requires ip != "" && Decide(c, t, ip, at) && at <= now
    ensures var a := NextAdmission(t, adm, ip, at);
      WellPlacedAt(c, adm + [a], |adm|) && EntryMatches(c, Update(c, t, ip, at), adm + [a], ip, now)
  {
    LastWellPlaced(c, adm);
    hide WellPlaced;
  }

  lemma {:induction false} AdmissionsWellPlaced(c: Config, es: seq<Timed>, ip: string, now: int)
    requires Monotone(es) && ip != "" && forall i :: 0 <= i < |es| ==> es[i].at <= now
    ensures WellPlaced(c, Admissions(c, es, ip))
    ensures EntryMatches(c, TableAfter(c, es), Admissions(c, es, ip), ip, now)
  {
    if es != [] {
      var before, e := es[..|es| - 1], es[|es| - 1];
      AdmissionsWellPlaced(c, before, ip, e.at);
      hide WellPlaced, Monotone;
      AdmissionNext(c, es, ip, Admissions(c, before, ip), TableAfter(c, before), now);
    }
  }

  lemma LastWellPlaced(c: Config, adm: seq<Admission>)
    requires WellPlaced(c, adm)
    ensures adm != [] ==> WellPlacedAt(c, adm, |adm| - 1)
  {
  }

  /** The next window opens within `PerWindow` admissions. */
  lemma {:induction false} NextWindow(c: Config, adm: seq<Admission>, i: nat, last: nat) returns (j: nat)
    requires WellPlaced(c, adm) && i < |adm| && last < |adm| && last >= i + PerWindow(c) - adm[i].place
    requires adm[i].place < PerWindow(c)
    ensures i < j <= i + PerWindow(c) - adm[i].place && adm[j].place == 0 && adm[j].at > adm[i].start + c.window
    decreases PerWindow(c) - adm[i].place
  {
    assert WellPlacedAt(c, adm, i + 1);
    if adm[i + 1].place == 0 {
      j := i + 1;
    } else {
      j := NextWindow(c, adm, i + 1, last);
    }
  }

  /** Any 2 * limit consecutive admissions take longer than one window. */
  lemma SpreadOut(c: Config, adm: seq<Admission>, i: nat)
    requires WellPlaced(c, adm) && i + 2 * PerWindow(c) - 1 < |adm|
    ensures adm[i + 2 * PerWindow(c) - 1].at > adm[i].at + c.window
  {
    var last := i + 2 * PerWindow(c) - 1;
    assert WellPlacedAt(c, adm, i);
    if adm[i].place == 0 {
      var j := NextWindow(c, adm, i, last);
      InOrder(c, adm, j, last);
    } else {
      var j := NextWindow(c, adm, i, last);
      assert WellPlacedAt(c, adm, j);
      var k := NextWindow(c, adm, j, last);
      InOrder(c, adm, i, j);
      InOrder(c, adm, k, last);
    }
  }

  lemma {:induction false} InOrder(c: Config, adm: seq<Admission>, i: nat, j: nat)
    requires WellPlaced(c, adm) && i <= j < |adm|
    ensures adm[i].at <= adm[j].at
    decreases j - i
  {
    if i < j {
      assert WellPlacedAt(c, adm, j);
      InOrder(c, adm, i, j - 1);
    }
  }

  /** How many of the admissions fall into [from, to]. */
  function CountIn(adm: seq<Admission>, from: int, to: int): nat {
    if adm == [] then 0
    else CountIn(adm[..|adm| - 1], from, to) + if from <= adm[|adm| - 1].at <= to then 1 else 0
  }

  lemma WellPlacedPrefix(c: Config, adm: seq<Admission>, n: nat)
    requires WellPlaced(c, adm) && n <= |adm|
    ensures WellPlaced(c, adm[..n])
    ensures 0 < n < |adm| ==> adm[n - 1].at <= adm[n].at
  {
    forall i | 0 <= i < n ensures WellPlacedAt(c, adm[..n], i) {
      assert WellPlacedAt(c, adm, i);
    }
    assert n < |adm| ==> WellPlacedAt(c, adm, n);
  }

  /** The admissions inside an interval are consecutive: if there are n, the n-th last is inside. */
  lemma {:induction false} CountedAreLast(c: Config, adm: seq<Admission>, from: int, to: int)
    requires WellPlaced(c, adm) && adm != [] && adm[|adm| - 1].at <= to && CountIn(adm, from, to) > 0
    ensures CountIn(adm, from, to) <= |adm| && adm[|adm| - CountIn(adm, from, to)].at >= from
  {
    hide WellPlaced;
    var n := |adm| - 1;
    WellPlacedPrefix(c, adm, n);
    if adm[n].at < from {
      AllEarlier(c, adm, from, to);
    } else if CountIn(adm[..n], from, to) > 0 {
      CountedAreLast(c, adm[..n], from, to);
    }
  }

  lemma {:induction false} AllEarlier(c: Config, adm: seq<Admission>, from: int, to: int)
    requires WellPlaced(c, adm) && adm != [] && adm[|adm| - 1].at < from
    ensures CountIn(adm, from, to) == 0
  {
    var n := |adm| - 1;
    if n > 0 {
      WellPlacedPrefix(c, adm, n);
      AllEarlier(c, adm[..n], from, to);
    }
  }

  lemma {:induction false} CountBound(c: Config, adm: seq<Admission>, from: int)
    requires WellPlaced(c, adm)
    ensures CountIn(adm, from, from + c.window) <= 2 * PerWindow(c) - 1
  {
    var to := from + c.window;
    if adm != [] {
      var n := |adm| - 1;
      WellPlacedPrefix(c, adm, n);
      if adm[n].at > to {
        CountBound(c, adm[..n], from);
      } else if CountIn(adm, from, to) > 2 * PerWindow(c) - 1 {
        CountedAreLast(c, adm, from, to);
        var i := |adm| - CountIn(adm, from, to);
        SpreadOut(c, adm, i);
        InOrder(c, adm, i + 2 * PerWindow(c) - 1, n);
        assert false;
      }
    }
  }

  lemma CountInAppend(adm: seq<Admission>, a: Admission, from: int, to: int)
    ensures CountIn(adm + [a], from, to) == CountIn(adm, from, to) + if from <= a.at <= to then 1 else 0
  {
    assert (adm + [a])[..|adm|] == adm;
  }

  lemma {:induction false} CountsAdmissions(c: Config, es: seq<Timed>, ip: string, from: int, to: int)
    ensures CountIn(Admissions(c, es, ip), from, to) == AdmittedIn(c, es, ip, from, to)
  {
    if es != [] {
      hide TableAfter, Decide, NextAdmission, CountIn;
      var init, e := es[..|es| - 1], es[|es| - 1];
      CountsAdmissions(c, init, ip, from, to);
      var before := Admissions(c, init, ip);
      CountInAppend(before, NextAdmission(TableAfter(c, init), before, ip, e.at), from, to);
    }
  }

  /**
   * In any run, with cleanups anywhere, every closed interval of one window's length holds at most
   * 2 * limit - 1 admissions of an address.
   */
  lemma SlidingWindowBound(c: Config, es: seq<Timed>, ip: string, from: int)
    requires Monotone(es) && ip != ""
    ensures AdmittedIn(c, es, ip, from, from + c.window) <= 2 * PerWindow(c) - 1
  {
    AdmissionsWellPlaced(c, es, ip, if es == [] then 0 else es[|es| - 1].at);
    CountBound(c, Admissions(c, es, ip), from);
    CountsAdmissions(c, es, ip, from, from + c.window);
  }

  // ---------------------------------------------------------------- a refusal has its reason

  /** All admissions of the last one's window are counted. */
  lemma {:induction false} WindowIsCounted(c: Config, adm: seq<Admission>, from: int, to: int)
    requires WellPlaced(c, adm) && adm != [] && from <= adm[|adm| - 1].start && adm[|adm| - 1].at <= to
    ensures CountIn(adm, from, to) >= adm[|adm| - 1].place + 1
  {
    var n := |adm| - 1;
    assert WellPlacedAt(c, adm, n);
    WellPlacedPrefix(c, adm, n);
    if adm[n].place > 0 {
      WindowIsCounted(c, adm[..n], from, to);
    }
  }

  /** An address is refused only when the limit was reached within the last window's length. */
  lemma RefusalMeansBusy(c: Config, es: seq<Timed>, ip: string, now: int)
    requires Monotone(es) && forall i :: 0 <= i < |es| ==> es[i].at <= now
    requires !Decide(c, TableAfter(c, es), ip, now)
    ensures ip != "" && AdmittedIn(c, es, ip, now - c.window, now) >= c.limit
  {
    hide WellPlaced;
    AdmissionsWellPlaced(c, es, ip, now);
    WindowIsCounted(c, Admissions(c, es, ip), now - c.window, now);
    CountsAdmissions(c, es, ip, now - c.window, now);
  }

  // ---------------------------------------------------------------- the bound is reached

  function Burst(ip: string, n: nat, at: int): seq<Timed> {
    seq(n, _ => Timed(Check(ip), at))
  }

  lemma {:induction false} BurstInWindow(c: Config, es: seq<Timed>, ip: string, n: nat, at: int, from: int, to: int)
    requires ip != "" && ip in TableAfter(c, es) && at <= TableAfter(c, es)[ip].windowEnd && TableAfter(c, es)[ip].count + n <= c.limit
    ensures var t, u := TableAfter(c, es), TableAfter(c, es + Burst(ip, n, at));
      ip in u && u[ip] == Entry(t[ip].count + n, t[ip].windowEnd)
    ensures AdmittedIn(c, es + Burst(ip, n, at), ip, from, to)
         == AdmittedIn(c, es, ip, from, to) + if from <= at <= to then n else 0
  {
    if n == 0 {
      assert es + Burst(ip, n, at) == es;
    } else {
      BurstInWindow(c, es, ip, n - 1, at, from, to);
      var shorter := es + Burst(ip, n - 1, at);
      assert es + Burst(ip, n, at) == shorter + [Timed(Check(ip), at)];
      assert (shorter + [Timed(Check(ip), at)])[..|shorter|] == shorter;
    }
  }

  lemma NewWindow(c: Config, es: seq<Timed>, ip: string, at: int, from: int, to: int)
    requires ip != "" && (ip in TableAfter(c, es) ==> at > TableAfter(c, es)[ip].windowEnd)
    ensures var u := TableAfter(c, es + Burst(ip, 1, at)); ip in u && u[ip] == Entry(1, at + c.window)
    ensures AdmittedIn(c, es + Burst(ip, 1, at), ip, from, to) == AdmittedIn(c, es, ip, from, to) + if from <= at <= to then 1 else 0
  {
    assert es + Burst(ip, 1, at) == es + [Timed(Check(ip), at)];
    assert (es + [Timed(Check(ip), at)])[..|es|] == es;
  }

  /** One request opens a window, the rest of it comes at its very end, and a full new window follows. */
  function Worst(c: Config, ip: string): seq<Timed>
    requires c.limit >= 1
  {
    Burst(ip, 1, 0) + Burst(ip, c.limit - 1, c.window) + Burst(ip, 1, c.window + 1) + Burst(ip, c.limit - 1, c.window + 1)
  }

  lemma WorstIsMonotone(c: Config, ip: string)
    requires c.limit >= 1
    ensures Monotone(Worst(c, ip))
  {
    var n := c.limit;
    forall i | 0 <= i < 2 * n
      ensures Worst(c, ip)[i].at == if i < 1 then 0 else if i < n then c.window else c.window + 1 {
    }
  }

  lemma StartsEmpty(c: Config, ip: string, from: int, to: int)
    ensures TableAfter(c, []) == map[] && AdmittedIn(c, [], ip, from, to) == 0
  {
  }

  /** The bound cannot be improved. */
  lemma SlidingWindowBoundIsTight(c: Config, ip: string)
    requires ip != "" && c.limit >= 1 && c.window >= 1
    ensures Monotone(Worst(c, ip)) && AdmittedIn(c, Worst(c, ip), ip, 1, 1 + c.window) == 2 * c.limit - 1
  {
    hide TableAfter, AdmittedIn, Monotone, Burst;
    var to := 1 + c.window;
    WorstIsMonotone(c, ip);
    StartsEmpty(c, ip, 1, to);
    var a := Burst(ip, 1, 0);
    NewWindow(c, [], ip, 0, 1, to);
    assert [] + a == a;
    BurstInWindow(c, a, ip, c.limit - 1, c.window, 1, to);
    FullWindow(c, a + Burst(ip, c.limit - 1, c.window), ip, c.window + 1, 1, to);
  }

  /** A new window that is used up at once. */
  lemma FullWindow(c: Config, es: seq<Timed>, ip: string, at: int, from: int, to: int)
    requires ip != "" && c.limit >= 1 && c.window >= 0 && from <= at <= to && (ip in TableAfter(c, es) ==> at > TableAfter(c, es)[ip].windowEnd)
    ensures AdmittedIn(c, es + Burst(ip, 1, at) + Burst(ip, c.limit - 1, at), ip, from, to) == AdmittedIn(c, es, ip, from, to) + c.limit
  {
    hide TableAfter, AdmittedIn, Burst;
    NewWindow(c, es, ip, at, from, to);
    BurstInWindow(c, es + Burst(ip, 1, at), ip, c.limit - 1, at, from, to);
  }
}
