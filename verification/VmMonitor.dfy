/**
The monitor that revives virtual machines (pkg/vm/monitor.go:45-147,
pkg/vm/manager.go:270-348, 409-416).

Config files survive a restart of the daemon, failure markers do not, and
counting markers also expire.  The handling of one machine is one step.
*/
module VmMonitor {

  type Id = string

  const FAILURES_BEFORE_DESTROY: nat := 4

  datatype Marker = Count(n: nat) | Permanent

  datatype Event =
    | Started(id: Id, noKeepAlive: bool)   // the config of a machine was saved
    | Restarted(id: Id)                    // the monitor ran the machine again
    | Decommissioned(id: Id)
    | Reset(id: Id)                        // the failure marker is gone

  datatype State = State(
    config: map<Id, bool>,                 // per machine: whether it must not be kept alive
    running: set<Id>,
    failures: map<Id, Marker>,
    log: seq<Event>)

  /** What the commands of a step do: whether the config is saved or read, and the machine starts and comes up. */
  datatype Io = Io(saves: bool, loads: bool, runs: bool, comesUp: bool)

  predicate RestartSucceeds(io: Io) {
    io.runs && io.comesUp
  }

  /** Gives up on a machine: its config goes, and its reservation is decommissioned. */
  function Destroy(s: State, id: Id): State {
    s.(config := s.config - {id}, log := s.log + [Decommissioned(id)])
  }

  function Failures(s: State, id: Id): nat {
    if id in s.failures && s.failures[id].Count? then s.failures[id].n else 0
  }

  function Revive(s: State, id: Id, io: Io): State {
    var tried := s.(log := s.log + [Restarted(id)], running := if io.runs then s.running + {id} else s.running);
    if RestartSucceeds(io) then tried else Destroy(tried, id)
  }

  /** A machine that does not run, and whose marker is not permanent. */
  function CountFailure(s: State, id: Id, io: Io): State {
    var count := Failures(s, id) + 1;
    var counted := s.(failures := s.failures[id := Count(count)]);
    if count >= FAILURES_BEFORE_DESTROY then Destroy(counted, id)
    else if id !in s.config || !io.loads then counted
    else if s.config[id] then counted.(failures := counted.failures[id := Permanent])
    else Revive(counted, id, io)
  }

  function MonitorId(s: State, id: Id, io: Io): State {
    if id in s.running then s
    else if id in s.failures && s.failures[id] == Permanent then s.(config := s.config - {id})
    else CountFailure(s, id, io)
  }

  function Forget(s: State, id: Id): State {
    if id in s.failures then s.(failures := s.failures - {id}, log := s.log + [Reset(id)]) else s
  }

  function Delete(s: State, id: Id): State {
    var gone := s.(config := s.config - {id}, running := s.running - {id});
    Forget(gone.(failures := gone.failures[id := Permanent]), id)
  }

  /**
   * Starting a machine.  When it cannot be run it is deleted again; when it is run but does not
   * come up the error is returned and everything stays.
   */
  function RunMachine(s: State, id: Id, noKeepAlive: bool, io: Io): State {
    if id in s.running || !io.saves then s
    else
      var saved := s.(config := s.config[id := noKeepAlive], log := s.log + [Started(id, noKeepAlive)]);
      var marked := if noKeepAlive then saved.(failures := saved.failures[id := Permanent]) else saved;
      if !io.runs then Delete(marked, id) else marked.(running := marked.running + {id})
  }

  /** All markers are lost when the daemon restarts. */
  function Resets(ids: seq<Id>): seq<Event> {
    if ids == [] then [] else Resets(ids[..|ids| - 1]) + [Reset(ids[|ids| - 1])]
  }

  datatype Step =
    | Run(id: Id, noKeepAlive: bool, io: Io)
    | Monitor(id: Id, io: Io)
    | DeleteVm(id: Id)
    | Crash(id: Id)                        // a machine stops by itself
    | Expire(id: Id)                       // a counting marker expires
    | RestartDaemon(ids: seq<Id>)          // `ids` are the markers it held

  ghost predicate Enabled(s: State, step: Step) {
    match step
    case Monitor(id, _) => id in s.config
    case Expire(id) => id in s.failures && s.failures[id].Count?
    case RestartDaemon(ids) => forall id :: id in ids <==> id in s.failures
    case _ => true
  }

  function Next(s: State, step: Step): State {
    match step
    case Run(id, noKeepAlive, io) => RunMachine(s, id, noKeepAlive, io)
    case Monitor(id, io) => MonitorId(s, id, io)
    case DeleteVm(id) => Delete(s, id)
    case Crash(id) => s.(running := s.running - {id})
    case Expire(id) => Forget(s, id)
    case RestartDaemon(ids) => s.(failures := map[], log := s.log + Resets(ids))
  }

  function RunAll(s: State, steps: seq<Step>): State {
    if |steps| == 0 then s else Next(RunAll(s, steps[..|steps| - 1]), steps[|steps| - 1])
  }

  const START := State(map[], {}, map[], [])

  ghost predicate Schedule(steps: seq<Step>) {
    forall i :: 0 <= i < |steps| ==> Enabled(RunAll(START, steps[..i]), steps[i])
  }

  // ---------------------------------------------------------------- machines that are not kept alive

  datatype Alive = Unknown | KeepAlive | NoKeepAlive

  /** How the machine was last started, from the log. */
  function LastStart(log: seq<Event>, id: Id): Alive {
    if log == [] then Unknown
    else
      var e := log[|log| - 1];
      if e == Started(id, true) then NoKeepAlive
      else if e == Started(id, false) then KeepAlive
      else LastStart(log[..|log| - 1], id)
  }

  ghost predicate NeverRevived(log: seq<Event>) {
    forall j :: 0 <= j < |log| && log[j].Restarted? ==> LastStart(log[..j], log[j].id) == KeepAlive
  }

  /** A config file tells how its machine was last started. */
  ghost predicate ConfigTrue(s: State) {
    forall id :: id in s.config ==> LastStart(s.log, id) == if s.config[id] then NoKeepAlive else KeepAlive
  }

  ghost predicate Faithful(s: State) {
    ConfigTrue(s) && NeverRevived(s.log)
  }

  lemma Appended(log: seq<Event>, e: Event, id: Id)
    ensures LastStart(log + [e], id) ==
      if e == Started(id, true) then NoKeepAlive
      else if e == Started(id, false) then KeepAlive else LastStart(log, id)
  {
    assert (log + [e])[..|log|] == log;
  }

  lemma NeverRevivedExtends(log: seq<Event>, e: Event)
    requires NeverRevived(log) && (e.Restarted? ==> LastStart(log, e.id) == KeepAlive)
    ensures NeverRevived(log + [e])
  {
    var more := log + [e];
    forall j | 0 <= j < |more| && more[j].Restarted? ensures LastStart(more[..j], more[j].id) == KeepAlive {
      assert more[..j] == log[..j];
      assert log[..|log|] == log;
    }
  }

  /** Logging an event that starts nothing keeps a shrinking config truthful. */
  lemma LogFaithful(s: State, e: Event, config: map<Id, bool>)
    requires Faithful(s) && !e.Started? && (e.Restarted? ==> LastStart(s.log, e.id) == KeepAlive)
    requires forall id :: id in config ==> id in s.config && config[id] == s.config[id]
    ensures forall t: State :: t.config == config && t.log == s.log + [e] ==> Faithful(t)
  {
    NeverRevivedExtends(s.log, e);
    forall id | id in config ensures LastStart(s.log + [e], id) == LastStart(s.log, id) {
      Appended(s.log, e, id);
    }
  }

  lemma StartFaithful(s: State, id: Id, noKeepAlive: bool)
    requires Faithful(s)
    ensures Faithful(s.(config := s.config[id := noKeepAlive], log := s.log + [Started(id, noKeepAlive)]))
  {
    var e := Started(id, noKeepAlive);
    NeverRevivedExtends(s.log, e);
    var t := s.(config := s.config[id := noKeepAlive], log := s.log + [e]);
    forall k | k in t.config ensures LastStart(t.log, k) == if t.config[k] then NoKeepAlive else KeepAlive {
      Appended(s.log, e, k);
    }
  }

  /** Markers and running machines do not matter, and a config file may go. */
  lemma SmallerConfigFaithful(s: State, t: State)
    requires Faithful(s) && t.log == s.log
    requires forall id :: id in t.config ==> id in s.config && t.config[id] == s.config[id]
    ensures Faithful(t)
  {
  }

  lemma DestroyFaithful(s: State, id: Id)
    requires Faithful(s)
    ensures Faithful(Destroy(s, id))
  {
    LogFaithful(s, Decommissioned(id), s.config - {id});
  }

  lemma ForgetFaithful(s: State, id: Id)
    requires Faithful(s)
    ensures Faithful(Forget(s, id))
  {
    LogFaithful(s, Reset(id), s.config);
  }

  lemma DeleteFaithful(s: State, id: Id)
    requires Faithful(s)
    ensures Faithful(Delete(s, id))
  {
    var gone := s.(config := s.config - {id}, running := s.running - {id});
    var marked := gone.(failures := gone.failures[id := Permanent]);
    SmallerConfigFaithful(s, marked);
    ForgetFaithful(marked, id);
  }

  lemma ReviveFaithful(s: State, id: Id, io: Io)
    requires Faithful(s) && id in s.config && !s.config[id]
    ensures Faithful(Revive(s, id, io))
  {
    var tried := s.(log := s.log + [Restarted(id)], running := if io.runs then s.running + {id} else s.running);
    LogFaithful(s, Restarted(id), s.config);
    assert Faithful(tried);
    DestroyFaithful(tried, id);
  }

  lemma MonitorFaithful(s: State, id: Id, io: Io)
    requires Faithful(s)
    ensures Faithful(MonitorId(s, id, io))
  {
    var counted := s.(failures := s.failures[id := Count(Failures(s, id) + 1)]);
    SmallerConfigFaithful(s, s.(config := s.config - {id}));
    SmallerConfigFaithful(s, counted);
    SmallerConfigFaithful(s, counted.(failures := counted.failures[id := Permanent]));
    DestroyFaithful(counted, id);
    if id in s.config && !s.config[id] {
      ReviveFaithful(counted, id, io);
    }
  }

  lemma RunFaithful(s: State, id: Id, noKeepAlive: bool, io: Io)
    requires Faithful(s)
    ensures Faithful(RunMachine(s, id, noKeepAlive, io))
  {
    StartFaithful(s, id, noKeepAlive);
    var saved := s.(config := s.config[id := noKeepAlive], log := s.log + [Started(id, noKeepAlive)]);
    var marked := if noKeepAlive then saved.(failures := saved.failures[id := Permanent]) else saved;
    SmallerConfigFaithful(saved, marked);
    DeleteFaithful(marked, id);
    SmallerConfigFaithful(marked, marked.(running := marked.running + {id}));
  }

  lemma {:induction false} ResetsFaithful(s: State, ids: seq<Id>)
    requires Faithful(s)
    ensures Faithful(s.(log := s.log + Resets(ids)))
    decreases |ids|
  {
    if ids == [] {
      assert s.log + [] == s.log;
    } else {
      var init := ids[..|ids| - 1];
      ResetsFaithful(s, init);
      var t := s.(log := s.log + Resets(init));
      LogFaithful(t, Reset(ids[|ids| - 1]), s.config);
      assert s.log + Resets(ids) == t.log + [Reset(ids[|ids| - 1])];
    }
  }

  lemma NextFaithful(s: State, step: Step)
    requires Faithful(s)
    ensures Faithful(Next(s, step))
  {
    match step
    case Run(id, noKeepAlive, io) => RunFaithful(s, id, noKeepAlive, io);
    case Monitor(id, io) => MonitorFaithful(s, id, io);
    case DeleteVm(id) => DeleteFaithful(s, id);
    case Crash(id) => SmallerConfigFaithful(s, Next(s, step));
    case Expire(id) => ForgetFaithful(s, id);
    case RestartDaemon(ids) =>
      ResetsFaithful(s, ids);
      SmallerConfigFaithful(s.(log := s.log + Resets(ids)), Next(s, step));
  }

  lemma {:induction false} RunAllFaithful(steps: seq<Step>)
    ensures Faithful(RunAll(START, steps))
    decreases |steps|
  {
    if |steps| != 0 {
      RunAllFaithful(steps[..|steps| - 1]);
      NextFaithful(RunAll(START, steps[..|steps| - 1]), steps[|steps| - 1]);
    }
  }

  /**
   * A machine started as not to be kept alive is never restarted by the monitor until it is started
   * anew, in any run, whatever is lost when the daemon restarts.
   */
  lemma NotKeptAliveStaysDown(steps: seq<Step>, j: nat)
    requires j < |RunAll(START, steps).log| && RunAll(START, steps).log[j].Restarted?
    ensures LastStart(RunAll(START, steps).log[..j], RunAll(START, steps).log[j].id) == KeepAlive
  {
    RunAllFaithful(steps);
  }

  // ---------------------------------------------------------------- machines that are kept alive

  /** How often a machine was restarted since its failure marker was last lost. */
  function RestartsSince(log: seq<Event>, id: Id): nat {
    if log == [] then 0
    else
      var e := log[|log| - 1];
      var before := RestartsSince(log[..|log| - 1], id);
      if e == Reset(id) then 0 else if e == Restarted(id) then before + 1 else before
  }

  ghost predicate AtMostThree(log: seq<Event>) {
    forall j, id :: 0 <= j <= |log| ==> RestartsSince(log[..j], id) <= 3
  }

  /** The marker of a machine bounds its restarts. */
  ghost predicate MarkerBounds(s: State, id: Id) {
    RestartsSince(s.log, id) <=
      if id !in s.failures then 0
      else if s.failures[id].Permanent? then 3
      else s.failures[id].n
  }

  ghost predicate Bounded(s: State) {
    AtMostThree(s.log) && forall id :: MarkerBounds(s, id)
  }

  lemma Since(log: seq<Event>, e: Event, id: Id)
    ensures RestartsSince(log + [e], id) ==
      if e == Reset(id) then 0
      else if e == Restarted(id) then RestartsSince(log, id) + 1 else RestartsSince(log, id)
  {
    assert (log + [e])[..|log|] == log;
  }

  lemma AtMostThreeExtends(log: seq<Event>, e: Event)
    requires AtMostThree(log) && (e.Restarted? ==> RestartsSince(log, e.id) <= 2)
    ensures AtMostThree(log + [e])
  {
    var more := log + [e];
    assert log[..|log|] == log;
    forall j, id | 0 <= j <= |more| ensures RestartsSince(more[..j], id) <= 3 {
      if j <= |log| {
        assert more[..j] == log[..j];
      } else {
        assert more[..j] == more;
        Since(log, e, id);
        assert RestartsSince(log[..|log|], id) <= 3;
      }
    }
  }

  /** An event that is neither a restart nor a reset changes no count. */
  lemma OtherEventBounded(s: State, e: Event, t: State)
    requires Bounded(s) && (e.Started? || e.Decommissioned?)
    requires t.failures == s.failures && t.log == s.log + [e]
    ensures Bounded(t)
  {
    AtMostThreeExtends(s.log, e);
    forall id ensures MarkerBounds(t, id) {
      Since(s.log, e, id);
      assert MarkerBounds(s, id);
    }
  }

  /** A marker may only be replaced by one that allows as much. */
  lemma LooserMarkerBounded(s: State, t: State, id: Id)
    requires Bounded(s) && t.log == s.log && t.failures.Keys == s.failures.Keys + {id}
    requires forall k :: k in s.failures && k != id ==> t.failures[k] == s.failures[k]
    requires t.failures[id].Permanent? || t.failures[id].n >= RestartsSince(s.log, id)
    ensures Bounded(t)
  {
    assert s.log[..|s.log|] == s.log;
    forall k ensures MarkerBounds(t, k) {
      assert MarkerBounds(s, k);
      assert RestartsSince(s.log[..|s.log|], k) <= 3;
    }
  }

  /** Only the markers and the log matter. */
  lemma SameMarkersBounded(s: State, t: State)
    requires Bounded(s) && t.failures == s.failures && t.log == s.log
    ensures Bounded(t)
  {
    forall id ensures MarkerBounds(t, id) {
      assert MarkerBounds(s, id);
    }
  }

  lemma ForgetBounded(s: State, id: Id)
    requires Bounded(s)
    ensures Bounded(Forget(s, id))
  {
    if id in s.failures {
      AtMostThreeExtends(s.log, Reset(id));
      forall k ensures MarkerBounds(Forget(s, id), k) {
        Since(s.log, Reset(id), k);
        assert MarkerBounds(s, k);
      }
    }
  }

  lemma DeleteBounded(s: State, id: Id)
    requires Bounded(s)
    ensures Bounded(Delete(s, id))
  {
    var gone := s.(config := s.config - {id}, running := s.running - {id});
    var marked := gone.(failures := gone.failures[id := Permanent]);
    LooserMarkerBounded(s, marked, id);
    ForgetBounded(marked, id);
  }

  lemma ReviveBounded(s: State, id: Id, io: Io)
    requires Bounded(s) && id in s.failures && s.failures[id].Count?
    requires RestartsSince(s.log, id) < s.failures[id].n <= 3
    ensures Bounded(Revive(s, id, io))
  {
    var tried := s.(log := s.log + [Restarted(id)], running := if io.runs then s.running + {id} else s.running);
    AtMostThreeExtends(s.log, Restarted(id));
    forall k ensures MarkerBounds(tried, k) {
      Since(s.log, Restarted(id), k);
      assert MarkerBounds(s, k);
    }
    OtherEventBounded(tried, Decommissioned(id), Destroy(tried, id));
  }

  lemma MonitorBounded(s: State, id: Id, io: Io)
    requires Bounded(s)
    ensures Bounded(MonitorId(s, id, io))
  {
    SameMarkersBounded(s, s.(config := s.config - {id}));
    if id !in s.running && !(id in s.failures && s.failures[id] == Permanent) {
      assert MarkerBounds(s, id);
      var counted := s.(failures := s.failures[id := Count(Failures(s, id) + 1)]);
      LooserMarkerBounded(s, counted, id);
      LooserMarkerBounded(counted, counted.(failures := counted.failures[id := Permanent]), id);
      OtherEventBounded(counted, Decommissioned(id), Destroy(counted, id));
      if Failures(s, id) + 1 < FAILURES_BEFORE_DESTROY {
        ReviveBounded(counted, id, io);
      }
    }
  }

  lemma RunBounded(s: State, id: Id, noKeepAlive: bool, io: Io)
    requires Bounded(s)
    ensures Bounded(RunMachine(s, id, noKeepAlive, io))
  {
    var saved := s.(config := s.config[id := noKeepAlive], log := s.log + [Started(id, noKeepAlive)]);
    OtherEventBounded(s, Started(id, noKeepAlive), saved);
    if noKeepAlive {
      LooserMarkerBounded(saved, saved.(failures := saved.failures[id := Permanent]), id);
    }
    var marked := if noKeepAlive then saved.(failures := saved.failures[id := Permanent]) else saved;
    DeleteBounded(marked, id);
    SameMarkersBounded(marked, marked.(running := marked.running + {id}));
  }

  /** Losing all markers at once starts every count anew. */
  lemma {:induction false} ResetsCount(log: seq<Event>, ids: seq<Id>, id: Id)
    requires AtMostThree(log)
    ensures AtMostThree(log + Resets(ids))
    ensures RestartsSince(log + Resets(ids), id) == if id in ids then 0 else RestartsSince(log, id)
    decreases |ids|
  {
    if ids == [] {
      assert log + Resets(ids) == log;
    } else {
      var (init, last) := (ids[..|ids| - 1], ids[|ids| - 1]);
      ResetsCount(log, init, id);
      assert log + Resets(ids) == (log + Resets(init)) + [Reset(last)];
      AtMostThreeExtends(log + Resets(init), Reset(last));
      Since(log + Resets(init), Reset(last), id);
      assert ids == init + [last];
    }
  }

  lemma RestartDaemonBounded(s: State, ids: seq<Id>)
    requires Bounded(s) && Enabled(s, RestartDaemon(ids))
    ensures Bounded(Next(s, RestartDaemon(ids)))
  {
    ResetsCount(s.log, ids, "");
    forall id ensures MarkerBounds(Next(s, RestartDaemon(ids)), id) {
      ResetsCount(s.log, ids, id);
      assert MarkerBounds(s, id);
    }
  }

  lemma NextBounded(s: State, step: Step)
    requires Bounded(s) && Enabled(s, step)
    ensures Bounded(Next(s, step))
  {
    match step
    case Run(id, noKeepAlive, io) => RunBounded(s, id, noKeepAlive, io);
    case Monitor(id, io) => MonitorBounded(s, id, io);
    case DeleteVm(id) => DeleteBounded(s, id);
    case Crash(id) => SameMarkersBounded(s, Next(s, step));
    case Expire(id) => ForgetBounded(s, id);
    case RestartDaemon(ids) => RestartDaemonBounded(s, ids);
  }

  /**
   * In every run, at every moment, a machine has been restarted at most three times since its
   * failure marker was last lost.
   */
  lemma {:induction false} AtMostThreeRestarts(steps: seq<Step>)
    requires Schedule(steps)
    ensures Bounded(RunAll(START, steps))
    decreases |steps|
  {
    if |steps| != 0 {
      var n := |steps| - 1;
      forall i | 0 <= i <= n ensures steps[..n][..i] == steps[..i] {
      }
      AtMostThreeRestarts(steps[..n]);
      NextBounded(RunAll(START, steps[..n]), steps[n]);
    }
  }

  /** The failure that finds three counted ones decommissions the machine and restarts nothing. */
  lemma FourthFailureDestroys(s: State, id: Id, io: Io)
    requires id !in s.running && id in s.failures && s.failures[id].Count?
    ensures
      var t := MonitorId(s, id, io);
      s.failures[id].n >= 3 <==> t.log == s.log + [Decommissioned(id)]
  {
    var t := MonitorId(s, id, io);
    if s.failures[id].n < 3 && id in s.config && io.loads && !s.config[id] {
      assert t.log[|s.log|] == Restarted(id);
    }
  }

  // ---------------------------------------------------------------- the module

  class Module {
    var config: map<Id, bool>
    var running: set<Id>
    var failures: map<Id, Marker>
    ghost var log: seq<Event>

    ghost function View(): State
      reads this
    {
      State(config, running, failures, log)
    }

    constructor ()
      ensures View() == START
    {
      config, running, failures, log := map[], {}, map[], [];
    }

    method MonitorOne(id: Id, io: Io)
      modifies this
      ensures View() == MonitorId(old(View()), id, io)
    {
      if id in running { return; }
      ghost var marked := failures;
      if id !in failures { failures := failures[id := Count(0)]; }
      if failures[id] == Permanent {
        config := config - {id};
        return;
      }
      failures := failures[id := Count(failures[id].n + 1)];
      assert failures == marked[id := Count(Failures(old(View()), id) + 1)];
      if failures[id].n >= FAILURES_BEFORE_DESTROY {
        GiveUp(id);
      } else if id in config && io.loads {
        if config[id] {
          failures := failures[id := Permanent];
        } else {
          Restart(id, io);
        }
      }
    }

    method Restart(id: Id, io: Io)
      modifies this
      ensures View() == Revive(old(View()), id, io)
    {
      log := log + [Restarted(id)];
      if io.runs { running := running + {id}; }
      if !io.runs || !io.comesUp { GiveUp(id); }
    }

    method GiveUp(id: Id)
      modifies this
      ensures View() == Destroy(old(View()), id)
    {
      config := config - {id};
      log := log + [Decommissioned(id)];
    }

    method Remove(id: Id)
      modifies this
      ensures View() == Delete(old(View()), id)
    {
      failures := failures[id := Permanent];
      running := running - {id};
      config := config - {id};
      failures := failures - {id};
      log := log + [Reset(id)];
    }

    method RunVm(id: Id, noKeepAlive: bool, io: Io) returns (ok: bool)
      modifies this
      ensures View() == RunMachine(old(View()), id, noKeepAlive, io)
      ensures ok <==> id !in old(running) && io.saves && io.runs && io.comesUp
    {
      if id in running { return false; }
      if !io.saves { return false; }
      config := config[id := noKeepAlive];
      log := log + [Started(id, noKeepAlive)];
      if noKeepAlive { failures := failures[id := Permanent]; }
      if !io.runs {
        Remove(id);
        return false;
      }
      running := running + {id};
      return io.comesUp;
    }
  }
}
