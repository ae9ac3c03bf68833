/**
Whole runs of the provision engine: jobs, external decommissions, the expiry
of the in-memory guard, and restarts of the daemon, in any order.
*/
module EngineRuns {
  import opened U64
  import opened MapSums
  import opened Primitives
  import opened Counters
  import opened Engine
  import opened Conservation
  import opened ReservationCache

  datatype Step =
    | Job(r: Reservation, env: Env)
    | External(id: Id, env: Env)
    | Forget(ids: set<Id>)
    | Restart(now: int, firstBoot: bool, files: Files, tally: Tally)

  ghost function Next(s: EngineState, step: Step): EngineState {
    match step
    case Job(r, env) => Handle(s, r, env).0
    case External(id, env) => DecommissionCached(s, id, env).0
    case Forget(ids) => s.(recent := s.recent - ids)
    case Restart(_, firstBoot, files, tally) =>
      s.(cache := Kept(s.cache, firstBoot, files), tally := tally, recent := {},
         log := s.log + [Purged(s.cache.Keys - Kept(s.cache, firstBoot, files).Keys)],
         running := if firstBoot then PersistentPart(s.running) else s.running)
  }

  ghost function Run(s: EngineState, steps: seq<Step>): EngineState {
    if |steps| == 0 then s else Next(Run(s, steps[..|steps| - 1]), steps[|steps| - 1])
  }

  ghost predicate Initial(s: EngineState, reserved: u64) {
    s == EngineState(map[], ZERO, {}, reserved, [], map[])
  }

  // ---------------------------------------------------------------- restart

  function KeptBy(s: EngineState, step: Step): Cache
    requires step.Restart?
  {
    Kept(s.cache, step.firstBoot, step.files)
  }

  /** The counters of a restart are those that the counting leaves, whether it comes to its end or not. */
  ghost predicate Restored(s: EngineState, step: Step)
    requires step.Restart?
  {
    exists part :: CountedAs(s, step, part)
  }

  ghost predicate CountedAs(s: EngineState, step: Step, part: Cache)
    requires step.Restart?
  {
    && PartOf(part, CountedPart(KeptBy(s, step), step.now)) && CountedSoFar(ZERO, part, step.tally)
    && (CanSync(KeptBy(s, step), step.now, step.files) ==> part == CountedPart(KeptBy(s, step), step.now))
  }

  /**
   * What a restart keeps of one reservation: everything, or after a reboot volumes alone, on the node as in the
   * cache; no job counts as handled any more.
   */
  lemma RestartKeeps(s: EngineState, step: Step, id: Id)
    requires step.Restart?
    ensures
      var t := Next(s, step);
      && t.recent == {} && t.tally == step.tally && t.reserved == s.reserved
      && (id in t.cache <==> id in s.cache && (step.firstBoot ==> s.cache[id].kind == Volume && id !in step.files.empty))
      && (id in t.cache ==> t.cache[id] == s.cache[id])
      && (id in t.running <==> id in s.running && (step.firstBoot ==> s.running[id].kind == Volume))
      && (id in t.running ==> t.running[id] == s.running[id])
  {
  }

  /** A counting that comes to its end gives each counter the sum over the part of the cache that counts. */
  ghost predicate Rebuilt(m: Meter, s: EngineState, step: Step)
    requires step.Restart?
  {
    step.tally.At(m) == Wrap(Total(m, CountedPart(KeptBy(s, step), step.now)))
  }

  lemma RestoredRebuilds(m: Meter, s: EngineState, step: Step)
    requires step.Restart? && Restored(s, step) && m != Networks
    requires CanSync(KeptBy(s, step), step.now, step.files)
    ensures Rebuilt(m, s, step)
  {
    var part :| CountedAs(s, step, part);
    assert ZERO.At(m) == 0;
  }

  /** Splitting the cache by whether a reservation counts splits every total. */
  lemma TotalSplits(m: Meter, cache: Cache, now: int)
    ensures Total(m, cache) == Total(m, CountedPart(cache, now)) + Total(m, SkippedPart(cache, now))
  {
    PartsMakeTheWhole(cache, now);
    SumUnion(CountedPart(cache, now), SkippedPart(cache, now), Weight(m));
  }

  lemma PartsMakeTheWhole(cache: Cache, now: int)
    ensures CountedPart(cache, now) + SkippedPart(cache, now) == cache
    ensures CountedPart(cache, now).Keys !! SkippedPart(cache, now).Keys
  {
  }

  lemma PartAndRest(m: Meter, part: Cache, cache: Cache)
    requires PartOf(part, cache)
    ensures Total(m, cache) == Total(m, part) + Total(m, cache - part.Keys)
  {
    JoinedAgain(part, cache);
    SumUnion(part, cache - part.Keys, Weight(m));
  }

  lemma JoinedAgain(part: Cache, cache: Cache)
    requires PartOf(part, cache)
    ensures part + (cache - part.Keys) == cache
  {
  }

  lemma AfterRestart(s: EngineState, step: Step)
    requires step.Restart?
    ensures Next(s, step).cache == KeptBy(s, step) && Next(s, step).tally == step.tally
  {
  }

  lemma CountedExactly(m: Meter, s: EngineState, tally: Tally, counted: nat, missed: nat)
    requires s.tally == tally && Total(m, s.cache) == counted + missed < LIMIT && tally.At(m) == Wrap(counted)
    ensures ConservedOn(m, s) <==> missed == 0
  {
  }

  /**
   * Restart agreement in general, wherever the counting stopped: a counter equals the sum over the cache
   * exactly when what was not counted weighs nothing.
   */
  lemma RestartAgreesOn(m: Meter, s: EngineState, step: Step, part: Cache)
    requires step.Restart? && PartOf(part, KeptBy(s, step)) && step.tally.At(m) == Wrap(Total(m, part))
    requires Total(m, KeptBy(s, step)) < LIMIT
    ensures ConservedOn(m, Next(s, step)) <==> Total(m, KeptBy(s, step) - part.Keys) == 0
  {
    AfterRestart(s, step);
    PartAndRest(m, part, KeptBy(s, step));
    CountedExactly(m, Next(s, step), step.tally, Total(m, part), Total(m, KeptBy(s, step) - part.Keys));
  }

  /**
   * Restart agreement: when nothing stops the counting, a counter equals the sum over the cache exactly when
   * the reservations that are skipped, those expired or not in the ok state, weigh nothing.
   */
  lemma RestartAgrees(m: Meter, s: EngineState, step: Step)
    requires step.Restart? && m != Networks && Restored(s, step) && CanSync(KeptBy(s, step), step.now, step.files)
    requires Total(m, KeptBy(s, step)) < LIMIT
    ensures ConservedOn(m, Next(s, step)) <==> Total(m, SkippedPart(KeptBy(s, step), step.now)) == 0
  {
    AfterRestart(s, step);
    RestoredRebuilds(m, s, step);
    TotalSplits(m, KeptBy(s, step), step.now);
    CountedExactly(m, Next(s, step), step.tally, Total(m, CountedPart(KeptBy(s, step), step.now)),
                   Total(m, SkippedPart(KeptBy(s, step), step.now)));
  }

  // ---------------------------------------------------------------- one step

  /** The condition, on the state before it, under which a step keeps a counter equal to its sum. */
  ghost predicate Sound(m: Meter, s: EngineState, step: Step) {
    match step
    case Job(r, env) => HandleSound(m, s, r, env)
    case External(_, _) => true
    case Forget(_) => true
    case Restart(now, _, files, _) =>
      && Restored(s, step) && CanSync(KeptBy(s, step), now, files)
      && Total(m, SkippedPart(KeptBy(s, step), now)) == 0
  }

  lemma NextKeepsKeys(s: EngineState, step: Step)
    requires WellKeyed(s.cache)
    ensures WellKeyed(Next(s, step).cache)
  {
    if step.Job? {
      HandleKeepsKeys(s, step.r, step.env);
    }
  }

  lemma NextConserves(m: Meter, s: EngineState, step: Step)
    requires m != Networks && WellKeyed(s.cache) && ConservedOn(m, s)
    requires Sound(m, s, step)
    requires Total(m, Next(s, step).cache) < LIMIT
    ensures ConservedOn(m, Next(s, step))
  {
    match step
    case Job(r, env) => HandleConserves(m, s, r, env);
    case External(id, env) => DecommissionCachedConserves(m, s, id, env);
    case Forget(_) =>
    case Restart(_, _, _, _) => RestartAgrees(m, s, step);
  }

  // ---------------------------------------------------------------- runs

  /**
   * Conservation over whole runs: if every step of a run is sound for a counter and its sum never
   * outgrows 64 bits, the counter equals the sum over the cache after every run.
   */
  lemma {:induction false} RunConserves(m: Meter, s: EngineState, reserved: u64, steps: seq<Step>)
    requires m != Networks && Initial(s, reserved)
    requires forall i :: 0 <= i < |steps| ==> Sound(m, Run(s, steps[..i]), steps[i])
    requires forall i :: 0 <= i <= |steps| ==> Total(m, Run(s, steps[..i]).cache) < LIMIT
    ensures WellKeyed(Run(s, steps).cache) && ConservedOn(m, Run(s, steps))
    decreases |steps|
  {
    if |steps| != 0 {
      var n := |steps| - 1;
      var init := steps[..n];
      forall i | 0 <= i <= n ensures init[..i] == steps[..i] {
      }
      RunConserves(m, s, reserved, init);
      assert steps[..|steps|] == steps;
      NextKeepsKeys(Run(s, init), steps[n]);
      NextConserves(m, Run(s, init), steps[n]);
    }
  }
}
