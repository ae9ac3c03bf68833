/**
The life of a machine under the monitor: what starting, monitoring and
deleting it do to it and to others (pkg/vm/monitor.go:80-147,
pkg/vm/manager.go:271-348, 409-416).
*/
module VmLifetime {
  import opened VmMonitor

  /** The log has grown, and not by a start, restart or decommission of that machine. */
  ghost predicate Quiet(was: seq<Event>, now: seq<Event>, id: Id) {
    && was <= now
    && forall j :: |was| <= j < |now| ==> now[j].Reset? || now[j].id != id
  }

  /** Nothing about that machine differs, and nothing was done to it. */
  ghost predicate Untouched(s: State, t: State, id: Id) {
    && (id in t.config <==> id in s.config) && (id in s.config ==> t.config[id] == s.config[id])
    && (id in t.running <==> id in s.running)
    && (id in t.failures <==> id in s.failures) && (id in s.failures ==> t.failures[id] == s.failures[id])
    && Quiet(s.log, t.log, id)
  }

  predicate About(step: Step, id: Id) {
    !step.RestartDaemon? && step.id == id
  }

  lemma QuietTwice(a: seq<Event>, b: seq<Event>, c: seq<Event>, id: Id)
    requires Quiet(a, b, id) && Quiet(b, c, id)
    ensures Quiet(a, c, id)
  {
    assert forall j :: |a| <= j < |b| ==> c[j] == b[j];
  }

  lemma {:induction false} OnlyResets(ids: seq<Id>)
    ensures forall j :: 0 <= j < |Resets(ids)| ==> Resets(ids)[j].Reset?
    decreases |ids|
  {
    if ids != [] {
      OnlyResets(ids[..|ids| - 1]);
    }
  }

  lemma DeleteTouchesOne(s: State, id: Id, other: Id)
    requires other != id
    ensures Untouched(s, Delete(s, id), other)
  {
  }

  lemma MonitorTouchesOne(s: State, id: Id, io: Io, other: Id)
    requires other != id
    ensures Untouched(s, MonitorId(s, id, io), other)
  {
  }

  lemma RunTouchesOne(s: State, id: Id, noKeepAlive: bool, io: Io, other: Id)
    requires other != id
    ensures Untouched(s, RunMachine(s, id, noKeepAlive, io), other)
  {
    var saved := s.(config := s.config[id := noKeepAlive], log := s.log + [Started(id, noKeepAlive)]);
    var marked := if noKeepAlive then saved.(failures := saved.failures[id := Permanent]) else saved;
    DeleteTouchesOne(marked, id, other);
    QuietTwice(s.log, saved.log, Delete(marked, id).log, other);
  }

  /** A step changes nothing about other machines; a restart of the daemon loses markers and nothing else. */
  lemma StepTouchesOne(s: State, step: Step, other: Id)
    requires !About(step, other)
    ensures if step.RestartDaemon?
      then Untouched(s, Next(s, step).(failures := s.failures), other) && Next(s, step).failures == map[]
      else Untouched(s, Next(s, step), other)
  {
    match step
    case Run(id, noKeepAlive, io) => RunTouchesOne(s, id, noKeepAlive, io, other);
    case Monitor(id, io) => MonitorTouchesOne(s, id, io, other);
    case DeleteVm(id) => DeleteTouchesOne(s, id, other);
    case Crash(_) =>
    case Expire(_) =>
    case RestartDaemon(ids) => OnlyResets(ids);
  }

  // ---------------------------------------------------------------- deleting

  /** A deleted machine has no config file, does not run and has no marker. */
  lemma DeleteRemoves(s: State, id: Id)
    ensures
      var t := Delete(s, id);
      && id !in t.config && id !in t.running && id !in t.failures && t.log == s.log + [Reset(id)]
      && forall other :: other != id ==> Untouched(s, t, other)
  {
    forall other | other != id ensures Untouched(s, Delete(s, id), other) {
      DeleteTouchesOne(s, id, other);
    }
  }

  /** Every step of the run can happen when it does. */
  ghost predicate EnabledRun(s: State, steps: seq<Step>) {
    forall i :: 0 <= i < |steps| ==> Enabled(RunAll(s, steps[..i]), steps[i])
  }

  ghost predicate NotStarted(steps: seq<Step>, id: Id) {
    forall i :: 0 <= i < |steps| ==> !(steps[i].Run? && steps[i].id == id)
  }

  predicate Gone(s: State, id: Id) {
    id !in s.config && id !in s.running
  }

  lemma GoneStays(s: State, step: Step, id: Id)
    requires Gone(s, id) && Enabled(s, step) && !(step.Run? && step.id == id)
    ensures Gone(Next(s, step), id) && Quiet(s.log, Next(s, step).log, id)
  {
    if !About(step, id) {
      StepTouchesOne(s, step, id);
    }
  }

  lemma {:induction false} RunGone(s: State, steps: seq<Step>, id: Id)
    requires Gone(s, id) && EnabledRun(s, steps) && NotStarted(steps, id)
    ensures Gone(RunAll(s, steps), id) && Quiet(s.log, RunAll(s, steps).log, id)
    decreases |steps|
  {
    if |steps| != 0 {
      var n := |steps| - 1;
      forall i | 0 <= i <= n ensures steps[..n][..i] == steps[..i] {
      }
      RunGone(s, steps[..n], id);
      GoneStays(RunAll(s, steps[..n]), steps[n], id);
      QuietTwice(s.log, RunAll(s, steps[..n]).log, RunAll(s, steps).log, id);
    }
  }

  /**
   * After a machine is deleted, in every run that does not start it anew it stays gone, and it is neither
   * restarted nor decommissioned.
   */
  lemma DeletedStaysGone(s: State, id: Id, steps: seq<Step>)
    requires EnabledRun(Delete(s, id), steps) && NotStarted(steps, id)
    ensures
      var (deleted, t) := (Delete(s, id), RunAll(Delete(s, id), steps));
      && id !in t.config && id !in t.running && deleted.log <= t.log
      && forall j :: |deleted.log| <= j < |t.log| ==> t.log[j] != Restarted(id) && t.log[j] != Decommissioned(id)
  {
    RunGone(Delete(s, id), steps, id);
  }

  // ---------------------------------------------------------------- starting and monitoring

  /** A start that works saves the config and runs the machine; it is marked if it is not to be kept alive. */
  lemma StartRuns(s: State, id: Id, noKeepAlive: bool, io: Io)
    requires id !in s.running && io.saves && io.runs
    ensures
      var t := RunMachine(s, id, noKeepAlive, io);
      && id in t.config && t.config[id] == noKeepAlive && id in t.running
      && (noKeepAlive ==> id in t.failures && t.failures[id] == Permanent)
      && (!noKeepAlive ==> t.failures == s.failures)
      && t.log == s.log + [Started(id, noKeepAlive)]
  {
  }

  /** A start that cannot run the machine leaves nothing of it; one that finds it running or cannot save does nothing. */
  lemma FailedStartLeavesNothing(s: State, id: Id, noKeepAlive: bool, io: Io)
    ensures
      var t := RunMachine(s, id, noKeepAlive, io);
      && (id in s.running || !io.saves ==> t == s)
      && (id !in s.running && io.saves && !io.runs ==> Gone(t, id) && id !in t.failures)
  {
  }

  /** The monitor leaves a machine alone that runs. */
  lemma RunningIsLeftAlone(s: State, id: Id, io: Io)
    ensures id in s.running ==> MonitorId(s, id, io) == s
  {
  }

  /** A machine to be kept alive that stopped is restarted, up to three times, and each failure is counted. */
  lemma KeptAliveIsRestarted(s: State, id: Id, io: Io)
    requires id in s.config && !s.config[id] && id !in s.running && io.loads && RestartSucceeds(io)
    requires id in s.failures ==> s.failures[id].Count? && s.failures[id].n < 3
    ensures
      var t := MonitorId(s, id, io);
      && id in t.running && id in t.config && t.config[id] == s.config[id] && t.log == s.log + [Restarted(id)]
      && id in t.failures && t.failures[id] == Count(1 + if id in s.failures then s.failures[id].n else 0)
  {
  }

  /** When the restart fails the machine is given up. */
  lemma FailedRestartGivesUp(s: State, id: Id, io: Io)
    requires id in s.config && !s.config[id] && id !in s.running && io.loads && !RestartSucceeds(io)
    requires id in s.failures ==> s.failures[id].Count? && s.failures[id].n < 3
    ensures
      var t := MonitorId(s, id, io);
      id !in t.config && t.log == s.log + [Restarted(id)] + [Decommissioned(id)]
  {
  }

  /** One not to be kept alive, its marker lost: the next round marks it, and the one after drops its config. */
  lemma NotKeptAliveIsForgotten(s: State, id: Id, io: Io, later: Io)
    requires id in s.config && s.config[id] && id !in s.running && io.loads
    requires id in s.failures ==> s.failures[id].Count? && s.failures[id].n < 3
    ensures
      var t := MonitorId(s, id, io);
      && t.config == s.config && id in t.failures && t.failures[id] == Permanent && t.log == s.log
      && Gone(MonitorId(t, id, later), id) && MonitorId(t, id, later).log == s.log
  {
  }

  /** A config that cannot be read: the failure is counted and nothing else happens, until there were three before. */
  lemma UnreadableConfigOnlyCounts(s: State, id: Id, io: Io)
    requires id !in s.running && !io.loads
    requires id in s.failures ==> s.failures[id].Count? && s.failures[id].n < 3
    ensures
      var n := 1 + if id in s.failures then s.failures[id].n else 0;
      MonitorId(s, id, io) == s.(failures := s.failures[id := Count(n)])
  {
  }
}
