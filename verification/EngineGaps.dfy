/**
Where conservation ends: concrete and general cases in which the counters and
the cache of the engine part.
*/
module EngineGaps {
  import opened Options
  import opened U64
  import opened Primitives
  import opened Counters
  import opened Engine
  import opened Conservation
  import opened ReservationCache
  import opened NodeMemory
  import opened EngineRuns
  import opened DeployOnce

  const ONE_GIB_VOLUME := Payload("{size:1}", Good(VolumeSpec(1, SSD)), Bad, Bad, Bad, Bad, Bad)

  function VolumeOf(id: Id, reference: Id): Reservation {
    Reservation(id, "user", Volume, ONE_GIB_VOLUME, 1, 100, false, reference, StateOk)
  }

  /** A disk on which everything works, at a given time. */
  function Working(now: int): Env {
    Env(now, None, {}, {}, {}, true, true, true, true, true, true, true, true, true, (u, n) => u + n)
  }

  lemma OneVolume(id: Id, reference: Id)
    ensures Contribution(Sru, VolumeOf(id, reference)) == GIB
  {
  }

  lemma TotalOfOne(m: Meter, k: Id, r: Reservation)
    ensures Total(m, map[k := r]) == Contribution(m, r)
  {
    TotalStore(m, map[], k, r);
    assert map[][k := r] == map[k := r];
  }

  /**
   * A migration whose new id is already cached removes the old reservation from the cache, fails to
   * add the new one and keeps the old weight in the counters.
   */
  lemma MigrationOntoCachedIdLeaks()
    ensures
      var cache: Cache := map["1" := VolumeOf("1", "")]["2" := VolumeOf("2", "1")];
      var s := EngineState(cache, ZERO.(volumes := 2, sru := 2 * GIB), {}, 0, [], map[]);
      && WellKeyed(s.cache) && ConservedOn(Sru, s)
      && !ConservedOn(Sru, Handle(s, VolumeOf("2", "1"), Working(10)).0)
  {
    var cache: Cache := map["1" := VolumeOf("1", "")]["2" := VolumeOf("2", "1")];
    var s := EngineState(cache, ZERO.(volumes := 2, sru := 2 * GIB), {}, 0, [], map[]);
    var (r, env) := (VolumeOf("2", "1"), Working(10));
    TwoVolumes();
    MigrateConserves(Sru, s.(recent := {"2"}), r, env);
    HandleOfFailedMigration(s, r, env);
  }

  lemma TwoVolumes()
    ensures
      var cache: Cache := map["1" := VolumeOf("1", "")]["2" := VolumeOf("2", "1")];
      && Total(Sru, cache) == 2 * GIB
      && Migrates(cache, VolumeOf("2", "1"), Working(10)).Some?
      && !MigrationSound(Sru, cache, VolumeOf("2", "1"), Working(10))
  {
    TotalOfOne(Sru, "1", VolumeOf("1", ""));
    TotalStore(Sru, map["1" := VolumeOf("1", "")], "2", VolumeOf("2", "1"));
    OneVolume("1", "");
    OneVolume("2", "1");
  }

  lemma HandleOfFailedMigration(s: EngineState, r: Reservation, env: Env)
    requires r.Valid(env.now) && !r.toDelete && r.id !in s.recent
    requires Migrate(s.(recent := s.recent + {r.id}), r, env).1 == Failed
    ensures Handle(s, r, env).0 == Migrate(s.(recent := s.recent + {r.id}), r, env).0
  {
  }

  /** A reservation that expired while the daemon was down is cached but not counted. */
  lemma RestartForgetsExpired()
    ensures
      var s := EngineState(map["1" := VolumeOf("1", "")], ZERO.(volumes := 1, sru := GIB), {}, 0, [], map[]);
      var step := Restart(1000, false, Files({}, {}), ZERO);
      && ConservedOn(Sru, s)
      && Restored(s, step) && CanSync(KeptBy(s, step), 1000, Files({}, {}))
      && !ConservedOn(Sru, Next(s, step))
  {
    TotalOfOne(Sru, "1", VolumeOf("1", ""));
    OneVolume("1", "");
    var cache: Cache := map["1" := VolumeOf("1", "")];
    var s := EngineState(cache, ZERO.(volumes := 1, sru := GIB), {}, 0, [], map[]);
    ExpiredIsSkipped(s);
    AfterRestart(s, Restart(1000, false, Files({}, {}), ZERO));
  }

  lemma ExpiredIsSkipped(s: EngineState)
    requires s.cache == map["1" := VolumeOf("1", "")]
    ensures
      var step := Restart(1000, false, Files({}, {}), ZERO);
      Restored(s, step) && CanSync(KeptBy(s, step), 1000, Files({}, {}))
  {
    assert CountedPart(s.cache, 1000) == map[];
    NothingCounted();
    assert CountedAs(s, Restart(1000, false, Files({}, {}), ZERO), map[]);
  }

  lemma NothingCounted()
    ensures CountedSoFar(ZERO, map[], ZERO)
  {
  }

  /** A volume whose document no longer decodes. */
  function BrokenVolume(id: Id): Reservation {
    Reservation(id, "user", Volume, Payload("{", Bad, Bad, Bad, Bad, Bad, Bad), 1, 100, false, "", StateOk)
  }

  /** The counting stops at a reservation that does not decode, and what comes after it is not counted. */
  lemma RestartStopsAtUndecodable()
    ensures
      var cache: Cache := map["1" := BrokenVolume("1")]["2" := VolumeOf("2", "")];
      var s := EngineState(cache, ZERO.(volumes := 2, sru := GIB), {}, 0, [], map[]);
      var step := Restart(10, false, Files({}, {}), ZERO.(volumes := 1));
      && ConservedOn(Sru, s) && ConservedOn(Volumes, s) && Restored(s, step)
      && !ConservedOn(Sru, Next(s, step)) && !ConservedOn(Volumes, Next(s, step))
  {
    var one: Cache := map["1" := BrokenVolume("1")];
    var cache := one["2" := VolumeOf("2", "")];
    var s := EngineState(cache, ZERO.(volumes := 2, sru := GIB), {}, 0, [], map[]);
    var step := Restart(10, false, Files({}, {}), ZERO.(volumes := 1));
    OneVolume("2", "");
    TotalOfOne(Sru, "1", BrokenVolume("1"));
    TotalOfOne(Volumes, "1", BrokenVolume("1"));
    TotalStore(Sru, one, "2", VolumeOf("2", ""));
    TotalStore(Volumes, one, "2", VolumeOf("2", ""));
    BrokenStopsCounting(s);
    AfterRestart(s, step);
  }

  lemma BrokenStopsCounting(s: EngineState)
    requires s.cache == map["1" := BrokenVolume("1")]["2" := VolumeOf("2", "")]
    ensures Restored(s, Restart(10, false, Files({}, {}), ZERO.(volumes := 1)))
  {
    var one: Cache := map["1" := BrokenVolume("1")];
    BrokenIsCounted();
    assert !Decodes(s.cache["1"]) && "1" in CountedPart(s.cache, 10);
    assert CountedAs(s, Restart(10, false, Files({}, {}), ZERO.(volumes := 1)), one);
  }

  lemma BrokenIsCounted()
    ensures CountedSoFar(ZERO, map["1" := BrokenVolume("1")], ZERO.(volumes := 1))
  {
    forall m: Meter | m != Networks
      ensures ZERO.(volumes := 1).At(m) == Wrap(ZERO.At(m) + Total(m, map["1" := BrokenVolume("1")]))
    {
      TotalOfOne(m, "1", BrokenVolume("1"));
    }
  }

  function LargerVolumeOf(id: Id): Reservation {
    VolumeOf(id, "").(toDelete := true,
                      data := Payload("{size:2}", Good(VolumeSpec(2, SSD)), Bad, Bad, Bad, Bad, Bad))
  }

  /** A decommission that carries other data than the reservation subtracts too much. */
  lemma DecommissionOfOtherData()
    ensures
      var cache: Cache := map["1" := VolumeOf("1", "")]["2" := VolumeOf("2", "1")];
      var s := EngineState(cache, ZERO.(volumes := 2, sru := 2 * GIB), {}, 0, [], map[]);
      && WellKeyed(s.cache) && ConservedOn(Sru, s)
      && !ConservedOn(Sru, Handle(s, LargerVolumeOf("1"), Working(10)).0)
  {
    var cache: Cache := map["1" := VolumeOf("1", "")]["2" := VolumeOf("2", "1")];
    var s := EngineState(cache, ZERO.(volumes := 2, sru := 2 * GIB), {}, 0, [], map[]);
    TwoVolumes();
    OneVolume("1", "");
    OtherDataIsSubtracted(s);
  }

  lemma OtherDataIsSubtracted(s: EngineState)
    requires "1" in s.cache && Contribution(Sru, s.cache["1"]) == GIB
    requires Total(Sru, s.cache) == 2 * GIB && ConservedOn(Sru, s)
    ensures !ConservedOn(Sru, Handle(s, LargerVolumeOf("1"), Working(10)).0)
  {
    assert Contribution(Sru, LargerVolumeOf("1")) == 2 * GIB;
    DecommissionConserves(Sru, s, LargerVolumeOf("1"), Working(10));
  }

  /** A volume whose cached copy cannot be read is deployed a second time. */
  lemma DeployedASecondTime()
    ensures
      var cache: Cache := map["1" := VolumeOf("1", "")];
      var s := EngineState(cache, ZERO.(volumes := 1, sru := GIB), {}, 0, [Deployed("1")] + [Added("1")], cache);
      var env := Working(10).(unreadable := {"1"}, provisioners := {Volume}, memory := Some(MemStats(0, 0)));
      Handle(s, VolumeOf("1", ""), env).0.log == s.log + [Deployed("1")]
  {
    var cache: Cache := map["1" := VolumeOf("1", "")];
    var s := EngineState(cache, ZERO.(volumes := 1, sru := GIB), {}, 0, [Deployed("1")] + [Added("1")], cache);
    var env := Working(10).(unreadable := {"1"}, provisioners := {Volume}, memory := Some(MemStats(0, 0)));
    DeployedAgainIffUnreadable(s.(recent := {"1"}), VolumeOf("1", ""), env);
    assert s.recent + {"1"} == {"1"};
  }

  /**
   * And when it is decommissioned later, its weight is subtracted although it had never been added
   * back: after the restart and the decommission the counter is right only if nothing else was
   * skipped and there was nothing else to subtract from.
   */
  lemma ExpiredAcrossRestart(m: Meter, s: EngineState, step: Step, id: Id, env: Env)
    requires step.Restart? && !step.firstBoot && Restored(s, step) && CanSync(s.cache, step.now, step.files) && m != Networks
    requires WellKeyed(s.cache) && Total(m, s.cache) < LIMIT
    requires id in SkippedPart(s.cache, step.now) && id !in env.unreadable
    requires TakesOut(s.cache, s.cache[id], env)
    ensures
      ConservedOn(m, DecommissionCached(Next(s, step), id, env).0) <==>
      var weight := Contribution(m, s.cache[id]);
      && Total(m, SkippedPart(s.cache, step.now)) == weight
      && (weight == 0 || Total(m, CountedPart(s.cache, step.now)) == 0)
  {
    Restarted(m, s, step);
    SkippedWeighs(m, s.cache, step.now, id);
    TakenOutUncounted(m, Next(s, step), id, env,
                      Total(m, CountedPart(s.cache, step.now)), Total(m, SkippedPart(s.cache, step.now)));
  }

  lemma Restarted(m: Meter, s: EngineState, step: Step)
    requires step.Restart? && !step.firstBoot && Restored(s, step) && CanSync(s.cache, step.now, step.files) && m != Networks
    requires Total(m, s.cache) < LIMIT
    ensures Next(s, step).cache == s.cache
    ensures Next(s, step).tally.At(m) == Total(m, CountedPart(s.cache, step.now))
    ensures Total(m, s.cache) == Total(m, CountedPart(s.cache, step.now)) + Total(m, SkippedPart(s.cache, step.now))
  {
    assert KeptBy(s, step) == s.cache;
    AfterRestart(s, step);
    RestoredRebuilds(m, s, step);
    TotalSplits(m, s.cache, step.now);
    SmallStays(step.tally.At(m), Total(m, CountedPart(s.cache, step.now)));
  }

  lemma SmallStays(count: u64, total: nat)
    requires count == Wrap(total) && total < LIMIT
    ensures count == total
  {
  }

  lemma SkippedWeighs(m: Meter, cache: Cache, now: int, id: Id)
    requires id in SkippedPart(cache, now)
    ensures id in cache && Contribution(m, cache[id]) <= Total(m, SkippedPart(cache, now))
  {
    TotalDrop(m, SkippedPart(cache, now), id);
  }

  /** The same, of any state whose counter misses a part `skipped` of the total. */
  lemma TakenOutUncounted(m: Meter, s: EngineState, id: Id, env: Env, counted: nat, skipped: nat)
    requires WellKeyed(s.cache) && id in s.cache && id !in env.unreadable
    requires TakesOut(s.cache, s.cache[id], env)
    requires s.tally.At(m) == counted && Total(m, s.cache) == counted + skipped
    requires Contribution(m, s.cache[id]) <= skipped
    ensures
      ConservedOn(m, DecommissionCached(s, id, env).0) <==>
      var weight := Contribution(m, s.cache[id]);
      skipped == weight && (weight == 0 || counted == 0)
  {
    TakenOut(m, s, id, env);
  }

  /** A decommission from the cache lowers the counter to the floor and the total by the weight. */
  lemma TakenOut(m: Meter, s: EngineState, id: Id, env: Env)
    requires WellKeyed(s.cache) && id in s.cache && id !in env.unreadable
    requires TakesOut(s.cache, s.cache[id], env)
    ensures
      var t := DecommissionCached(s, id, env).0;
      && t.tally.At(m) == Monus(s.tally.At(m), Contribution(m, s.cache[id]))
      && Total(m, t.cache) + Contribution(m, s.cache[id]) == Total(m, s.cache)
  {
    TotalDrop(m, s.cache, id);
    DecreasedAt(s.tally, s.cache[id], m);
  }
}
