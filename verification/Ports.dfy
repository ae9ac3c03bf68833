/**
The allocator of ports, over the contract of its store (pkg/network/portm/allocator.go).

The store keeps, per namespace, the ports held and the port reserved last.  The
lock makes each call atomic, so a run is a sequence of calls.
*/
module Ports {

  type Namespace = string

  datatype Range = Range(start: int, end: int)

  datatype Store = Store(held: map<Namespace, set<int>>, last: map<Namespace, int>)

  datatype Outcome = Port(port: int) | NoFreePort | StoreFailed

  /**
   * Which calls of the store fail, and which ports it refuses without an error although nobody in the
   * namespace holds them; such a call leaves the store as it is.
   */
  datatype Faults = Faults(list: bool, last: bool, ports: set<int>, refused: set<int>)

  const NO_FAULTS := Faults(false, false, {}, {})

  function Held(s: Store, ns: Namespace): set<int> {
    if ns in s.held then s.held[ns] else {}
  }

  /** -1 when nothing was reserved yet. */
  function LastReserved(s: Store, ns: Namespace): int {
    if ns in s.last then s.last[ns] else -1
  }

  function Taken(s: Store, ns: Namespace, port: int): Store {
    Store(s.held[ns := Held(s, ns) + {port}], s.last[ns := port])
  }

  // ---------------------------------------------------------------- one call

  function ScanStart(r: Range, last: int): int {
    if last == -1 || last >= r.end then r.start else last
  }

  /** The first port that is neither held nor refused, unless the store fails to reserve it. */
  function Scan(held: set<int>, failing: set<int>, from: int, end: int): Outcome
    decreases end - from
  {
    if from > end then NoFreePort
    else if from in held then Scan(held, failing, from + 1, end)
    else if from in failing then StoreFailed
    else Port(from)
  }

  ghost predicate HeldFromTo(held: set<int>, from: int, to: int) {
    forall q :: from <= q < to ==> q in held
  }

  lemma {:induction false} ScanIsExact(held: set<int>, failing: set<int>, from: int, end: int, p: int)
    ensures Scan(held, failing, from, end) == Port(p) <==>
            from <= p <= end && p !in held && p !in failing && HeldFromTo(held, from, p)
    ensures Scan(held, failing, from, end) == NoFreePort <==> HeldFromTo(held, from, end + 1)
    decreases end - from
  {
    if from <= end && from in held {
      ScanIsExact(held, failing, from + 1, end, p);
    }
  }

  function Reserved(s: Store, r: Range, ns: Namespace, f: Faults): (Store, Outcome) {
    if f.list || f.last then (s, StoreFailed)
    else
      var outcome := Scan(Held(s, ns) + f.refused, f.ports, ScanStart(r, LastReserved(s, ns)), r.end);
      (if outcome.Port? then Taken(s, ns, outcome.port) else s, outcome)
  }

  function Released(s: Store, ns: Namespace, port: int): Store {
    if ns in s.held then s.(held := s.held[ns := s.held[ns] - {port}]) else s
  }

  /** With a store that works, a call fails exactly when everything from the start of the scan is held. */
  lemma FailsIffHeldFromStart(s: Store, r: Range, ns: Namespace)
    ensures Reserved(s, r, ns, NO_FAULTS).1 == NoFreePort <==>
            HeldFromTo(Held(s, ns), ScanStart(r, LastReserved(s, ns)), r.end + 1)
    ensures !Reserved(s, r, ns, NO_FAULTS).1.StoreFailed?
  {
    assert Held(s, ns) + {} == Held(s, ns);
    ScanIsExact(Held(s, ns), {}, ScanStart(r, LastReserved(s, ns)), r.end, 0);
    NoFaultScan(Held(s, ns), ScanStart(r, LastReserved(s, ns)), r.end);
  }

  lemma {:induction false} NoFaultScan(held: set<int>, from: int, end: int)
    ensures !Scan(held, {}, from, end).StoreFailed?
    decreases end - from
  {
    if from <= end {
      NoFaultScan(held, from + 1, end);
    }
  }

  ghost predicate SomeFree(s: Store, r: Range, ns: Namespace) {
    exists q :: r.start <= q <= r.end && q !in Held(s, ns)
  }

  /**
   * A free port of the range is missed exactly when the port reserved last lies inside the range and
   * the free ports all lie below it; a fresh namespace or one that reached the end misses none.
   */
  lemma MissesFreePortIff(s: Store, r: Range, ns: Namespace)
    requires SomeFree(s, r, ns) && InRange(s, r)
    ensures Reserved(s, r, ns, NO_FAULTS).1 == NoFreePort <==>
            ns in s.last && s.last[ns] < r.end && HeldFromTo(Held(s, ns), s.last[ns], r.end + 1)
  {
    FailsIffHeldFromStart(s, r, ns);
    var q :| r.start <= q <= r.end && q !in Held(s, ns);
  }

  // ---------------------------------------------------------------- runs

  datatype Call = Reserve(ns: Namespace, faults: Faults) | Release(ns: Namespace, port: int)

  function Next(s: Store, r: Range, c: Call): Store {
    match c
    case Reserve(ns, faults) => Reserved(s, r, ns, faults).0
    case Release(ns, port) => Released(s, ns, port)
  }

  function Run(s: Store, r: Range, calls: seq<Call>): Store {
    if calls == [] then s else Next(Run(s, r, calls[..|calls| - 1]), r, calls[|calls| - 1])
  }

  /** What call `i` of a run returned, when it was a reservation. */
  function ReturnedAt(s: Store, r: Range, calls: seq<Call>, i: nat): Outcome
    requires i < |calls| && calls[i].Reserve?
  {
    Reserved(Run(s, r, calls[..i]), r, calls[i].ns, calls[i].faults).1
  }

  ghost predicate InRange(s: Store, r: Range) {
    && 0 <= r.start
    && (forall ns :: ns in s.last ==> r.start <= s.last[ns] <= r.end)
  }

  lemma NextInRange(s: Store, r: Range, c: Call)
    requires InRange(s, r)
    ensures InRange(Next(s, r, c), r)
    ensures c.Reserve? ==>
              var o := Reserved(s, r, c.ns, c.faults).1;
              o.Port? ==> r.start <= o.port <= r.end && o.port !in Held(s, c.ns) && o.port in Held(Next(s, r, c), c.ns)
  {
    if c.Reserve? && Reserved(s, r, c.ns, c.faults).1.Port? {
      ScanIsExact(Held(s, c.ns) + c.faults.refused, c.faults.ports, ScanStart(r, LastReserved(s, c.ns)), r.end,
                  Reserved(s, r, c.ns, c.faults).1.port);
    }
  }

  /** In every run each port handed out is in the range and was held by nobody. */
  lemma {:induction false} RunInRange(s: Store, r: Range, calls: seq<Call>)
    requires InRange(s, r)
    ensures InRange(Run(s, r, calls), r)
    decreases |calls|
  {
    if calls != [] {
      RunInRange(s, r, calls[..|calls| - 1]);
      NextInRange(Run(s, r, calls[..|calls| - 1]), r, calls[|calls| - 1]);
    }
  }

  lemma EveryPortInRange(s: Store, r: Range, calls: seq<Call>, i: nat)
    requires InRange(s, r) && i < |calls| && calls[i].Reserve? && ReturnedAt(s, r, calls, i).Port?
    ensures
      var p := ReturnedAt(s, r, calls, i).port;
      r.start <= p <= r.end && p !in Held(Run(s, r, calls[..i]), calls[i].ns)
  {
    RunInRange(s, r, calls[..i]);
    NextInRange(Run(s, r, calls[..i]), r, calls[i]);
  }

  /** A call takes away a held port only by releasing it. */
  lemma HeldUnlessReleased(s: Store, r: Range, c: Call, ns: Namespace, p: int)
    requires p in Held(s, ns) && c != Release(ns, p)
    ensures p in Held(Next(s, r, c), ns)
  {
  }

  ghost predicate ReleasedBetween(calls: seq<Call>, i: nat, j: nat, ns: Namespace, p: int) {
    exists k :: i < k < j && k < |calls| && calls[k] == Release(ns, p)
  }

  lemma {:induction false} StaysHeld(s: Store, r: Range, calls: seq<Call>, i: nat, j: nat, ns: Namespace, p: int)
    requires i < j <= |calls| && p in Held(Run(s, r, calls[..i + 1]), ns) && !ReleasedBetween(calls, i, j, ns, p)
    ensures p in Held(Run(s, r, calls[..j]), ns)
    decreases j
  {
    if j > i + 1 {
      StaysHeld(s, r, calls, i, j - 1, ns, p);
      assert calls[..j][..j - 1] == calls[..j - 1] && calls[..j][j - 1] == calls[j - 1];
      HeldUnlessReleased(Run(s, r, calls[..j - 1]), r, calls[j - 1], ns, p);
    }
  }

  /**
   * Mutual exclusion over whole runs: a port handed out twice in a namespace was released in between,
   * whatever else was called, in whatever namespace.
   */
  lemma NeverHandedOutTwice(s: Store, r: Range, calls: seq<Call>, i: nat, j: nat)
    requires i < j < |calls| && calls[i].Reserve? && calls[j].Reserve? && calls[i].ns == calls[j].ns
    requires ReturnedAt(s, r, calls, i).Port? && ReturnedAt(s, r, calls, j) == ReturnedAt(s, r, calls, i)
    ensures ReleasedBetween(calls, i, j, calls[i].ns, ReturnedAt(s, r, calls, i).port)
  {
    var (ns, p) := (calls[i].ns, ReturnedAt(s, r, calls, i).port);
    assert calls[..i + 1][..i] == calls[..i] && calls[..i + 1][i] == calls[i];
    assert p in Held(Run(s, r, calls[..i + 1]), ns);
    var before := Run(s, r, calls[..j]);
    ScanIsExact(Held(before, ns) + calls[j].faults.refused, calls[j].faults.ports, ScanStart(r, LastReserved(before, ns)), r.end, p);
    if !ReleasedBetween(calls, i, j, ns, p) {
      StaysHeld(s, r, calls, i, j, ns, p);
    }
  }

  // ---------------------------------------------------------------- starving beside a free port

  /** The scan starts inside the range and finds everything up to the end held. */
  ghost predicate Starved(s: Store, r: Range, ns: Namespace) {
    ns in s.last && -1 < s.last[ns] < r.end && HeldFromTo(Held(s, ns), s.last[ns], r.end + 1)
  }

  /** The namespace gets a port back, but only below the one it reserved last. */
  predicate GivesBackBelow(c: Call, ns: Namespace, last: int) {
    c.ns == ns ==> c.Reserve? || c.port < last
  }

  lemma StarvedStep(s: Store, r: Range, ns: Namespace, c: Call)
    requires Starved(s, r, ns) && GivesBackBelow(c, ns, s.last[ns])
    ensures Starved(Next(s, r, c), r, ns) && Next(s, r, c).last[ns] == s.last[ns]
    ensures c.Reserve? && c.ns == ns ==> !Reserved(s, r, ns, c.faults).1.Port?
  {
    if c.Reserve? {
      ScanIsExact(Held(s, c.ns) + c.faults.refused, c.faults.ports, ScanStart(r, LastReserved(s, c.ns)), r.end, 0);
    }
  }

  /** A starved namespace gets no port in any run that releases only below its last, however much it releases. */
  lemma {:induction false} StarvesForever(s: Store, r: Range, ns: Namespace, calls: seq<Call>)
    requires Starved(s, r, ns) && forall i :: 0 <= i < |calls| ==> GivesBackBelow(calls[i], ns, s.last[ns])
    ensures Starved(Run(s, r, calls), r, ns) && Run(s, r, calls).last[ns] == s.last[ns]
    ensures forall i :: 0 <= i < |calls| && calls[i] == Reserve(ns, NO_FAULTS) ==> ReturnedAt(s, r, calls, i) == NoFreePort
    decreases |calls|
  {
    if calls != [] {
      var (n, front) := (|calls| - 1, calls[..|calls| - 1]);
      StarvesForever(s, r, ns, front);
      StarvedStep(Run(s, r, front), r, ns, calls[n]);
      forall i | 0 <= i < |calls| && calls[i] == Reserve(ns, NO_FAULTS) ensures ReturnedAt(s, r, calls, i) == NoFreePort {
        if i < n {
          assert front[..i] == calls[..i] && front[i] == calls[i];
          assert ReturnedAt(s, r, front, i) == NoFreePort;
        } else {
          FailsIffHeldFromStart(Run(s, r, front), r, ns);
        }
      }
    }
  }

  ghost predicate Looks(s: Store, ns: Namespace, held: set<int>, last: int) {
    ns in s.last && s.last[ns] == last && Held(s, ns) == held
  }

  lemma Gives(s: Store, r: Range, ns: Namespace, p: int)
    requires ScanStart(r, LastReserved(s, ns)) <= p <= r.end && p !in Held(s, ns)
    requires HeldFromTo(Held(s, ns), ScanStart(r, LastReserved(s, ns)), p)
    ensures Looks(Next(s, r, Reserve(ns, NO_FAULTS)), ns, Held(s, ns) + {p}, p)
  {
    assert Held(s, ns) + {} == Held(s, ns);
    ScanIsExact(Held(s, ns), {}, ScanStart(r, LastReserved(s, ns)), r.end, p);
  }

  function TakeThree(ns: Namespace): seq<Call> {
    [] + [Reserve(ns, NO_FAULTS)] + [Reserve(ns, NO_FAULTS)] + [Reserve(ns, NO_FAULTS)]
  }

  function TakeThreeAndReuse(ns: Namespace): seq<Call> {
    TakeThree(ns) + [Release(ns, 2)] + [Reserve(ns, NO_FAULTS)] + [Release(ns, 1)]
  }

  lemma ThreeTaken(ns: Namespace)
    ensures Looks(Run(Store(map[], map[]), Range(1, 3), TakeThree(ns)), ns, {1, 2, 3}, 3)
  {
    var (s, r, take) := (Store(map[], map[]), Range(1, 3), Reserve(ns, NO_FAULTS));
    Gives(s, r, ns, 1);
    var one := Append(s, r, [], take);
    assert Looks(one, ns, {1}, 1);
    Gives(one, r, ns, 2);
    var two := Append(s, r, [] + [take], take);
    assert Looks(two, ns, {1, 2}, 2);
    Gives(two, r, ns, 3);
    var three := Append(s, r, [] + [take] + [take], take);
    assert Held(three, ns) == {1, 2, 3};
  }

  /** Three ports, one of them reused and one free: the next reservation finds none. */
  lemma StarvedAfterReuse(ns: Namespace)
    ensures
      var (r, s) := (Range(1, 3), Run(Store(map[], map[]), Range(1, 3), TakeThreeAndReuse(ns)));
      Starved(s, r, ns) && SomeFree(s, r, ns)
  {
    var (s, r, take) := (Store(map[], map[]), Range(1, 3), Reserve(ns, NO_FAULTS));
    ThreeTaken(ns);
    var four := Append(s, r, TakeThree(ns), Release(ns, 2));
    assert Looks(four, ns, {1, 3}, 3);
    Gives(four, r, ns, 2);
    var five := Append(s, r, TakeThree(ns) + [Release(ns, 2)], take);
    assert Held(five, ns) == {1, 2, 3};
    var six := Append(s, r, TakeThree(ns) + [Release(ns, 2)] + [take], Release(ns, 1));
    assert Looks(six, ns, {2, 3}, 2);
    assert 1 !in Held(six, ns);
  }

  lemma Append(s: Store, r: Range, calls: seq<Call>, c: Call) returns (after: Store)
    ensures after == Next(Run(s, r, calls), r, c) == Run(s, r, calls + [c])
  {
    assert (calls + [c])[..|calls|] == calls;
    after := Next(Run(s, r, calls), r, c);
  }

  // ---------------------------------------------------------------- the allocator

  method Contains(ports: seq<int>, port: int) returns (found: bool)
    ensures found <==> port in ports
  {
    for i := 0 to |ports|
      invariant port !in ports[..i]
    {
      if ports[i] == port {
        return true;
      }
    }
    return false;
  }

  class Allocator {
    const range: Range
    var store: Store

    constructor (r: Range)
      ensures range == r && store == Store(map[], map[])
    {
      range := r;
      store := Store(map[], map[]);
    }

    /** `listing` is how the store happens to list the held ports. */
    method ReservePort(ns: Namespace, faults: Faults, listing: seq<int>) returns (outcome: Outcome)
      requires forall p :: p in listing <==> p in Held(store, ns)
      modifies this
      ensures (store, outcome) == Reserved(old(store), range, ns, faults)
    {
      if faults.list || faults.last {
        return StoreFailed;
      }
      var start := LastReserved(store, ns);
      if start == -1 || start >= range.end {
        start := range.start;
      }
      var port := start;
      while port <= range.end
        invariant store == old(store)
        invariant Scan(Held(store, ns) + faults.refused, faults.ports, start, range.end) ==
                  Scan(Held(store, ns) + faults.refused, faults.ports, port, range.end)
        decreases range.end - port
      {
        var isHeld := Contains(listing, port);
        if !isHeld && port !in faults.refused {
          if port in faults.ports {
            return StoreFailed;
          }
          store := Taken(store, ns, port);
          return Port(port);
        }
        port := port + 1;
      }
      return NoFreePort;
    }

    method ReleasePort(ns: Namespace, port: int)
      modifies this
      ensures store == Released(old(store), ns, port)
    {
      if ns in store.held {
        store := Store(store.held[ns := store.held[ns] - {port}], store.last);
      }
    }
  }

  // ---------------------------------------------------------------- what a release undoes

  /** A release gives back that port and nothing else. */
  lemma ReleaseFrees(s: Store, ns: Namespace, port: int)
    ensures Held(Released(s, ns, port), ns) == Held(s, ns) - {port} && Released(s, ns, port).last == s.last
    ensures forall other :: other != ns ==> Held(Released(s, ns, port), other) == Held(s, other)
  {
  }

  /** Releasing the port of a reservation leaves every namespace with the ports it had. */
  lemma ReleaseUndoesReserve(s: Store, r: Range, ns: Namespace, f: Faults)
    requires Reserved(s, r, ns, f).1.Port?
    ensures
      var (t, port) := (Reserved(s, r, ns, f).0, Reserved(s, r, ns, f).1.port);
      && Held(t, ns) == Held(s, ns) + {port} && LastReserved(t, ns) == port
      && (forall other :: Held(Released(t, ns, port), other) == Held(s, other))
      && (forall other :: other != ns ==> Held(t, other) == Held(s, other) && LastReserved(t, other) == LastReserved(s, other))
  {
    var port := Reserved(s, r, ns, f).1.port;
    ScanIsExact(Held(s, ns) + f.refused, f.ports, ScanStart(r, LastReserved(s, ns)), r.end, port);
    var t := Reserved(s, r, ns, f).0;
    assert Held(t, ns) - {port} == Held(s, ns);
  }

  /** A namespace with nothing reserved before, or whose last port was the end of the range, gets its lowest free port. */
  lemma LowestFreeIsTaken(s: Store, r: Range, ns: Namespace, p: int)
    requires ns !in s.last || s.last[ns] == -1 || s.last[ns] >= r.end
    ensures Reserved(s, r, ns, NO_FAULTS).1 == Port(p) <==>
      r.start <= p <= r.end && p !in Held(s, ns) && forall q :: r.start <= q < p ==> q in Held(s, ns)
  {
    assert Held(s, ns) + {} == Held(s, ns);
    ScanIsExact(Held(s, ns), {}, r.start, r.end, p);
  }

  /** Otherwise it gets the lowest free one from its last port on. */
  lemma NextFreeIsTaken(s: Store, r: Range, ns: Namespace, p: int)
    requires ns in s.last && s.last[ns] != -1 && s.last[ns] < r.end
    ensures Reserved(s, r, ns, NO_FAULTS).1 == Port(p) <==>
      s.last[ns] <= p <= r.end && p !in Held(s, ns) && forall q :: s.last[ns] <= q < p ==> q in Held(s, ns)
  {
    assert Held(s, ns) + {} == Held(s, ns);
    ScanIsExact(Held(s, ns), {}, s.last[ns], r.end, p);
  }
}
