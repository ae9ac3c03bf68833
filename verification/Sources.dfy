/**
The reservation sources and the event loop of the engine as a protocol of
processes and channels (pkg/provision/source.go:60-136, 158-241,
pkg/provision/engine.go:158-254).

The channels between a source, its forwarder and the engine are unbuffered: a
message changes hands in one step in which both sides take part.  The clean-up
channel has room for two.  A step that is not enabled changes nothing, so
every sequence of steps is an interleaving.
*/
module Sources {

  import opened Options

  datatype Msg = Job(id: nat) | Last

  /** The loop of the poll source. */
  datatype PollPhase =
    | Polling
    | Sending(jobs: seq<nat>, mark: bool, lastID: nat, eos: bool)
    | Stopped(cancelled: bool)

  datatype Origin = FromPoll | FromExpiry

  datatype EnginePhase =
    | Ready
    | Handling(msg: Msg, origin: Origin)
    | Kicking                    // sending to the clean-up channel

  datatype World = World(
    // the explorer: the workloads of this node, and the highest last id it has reported
    store: set<nat>,
    horizon: nat,
    // the poll source
    next: nat,
    previousLastID: nat,
    triggerCleanup: bool,
    poll: PollPhase,
    sent: seq<Msg>,              // everything the poll source has sent
    // the decommission source and the two forwarders
    expired: seq<nat>,
    pollFwd: Option<Msg>,
    expiryFwd: Option<Msg>,
    // the engine
    engine: EnginePhase,
    allProcessed: bool,
    handled: seq<Msg>,           // what the engine has dealt with, of the poll source
    cleanUp: nat,
    cronWaiting: nat,
    cancelled: bool,
    runs: seq<nat>,              // per run of the janitor, how much had been handled
    markerCursor: nat,           // the cursor when the marker was sent
    due: seq<nat>,               // everything the decommission source has found expired
    ended: seq<Msg>)             // what the engine has dealt with, of that source

  datatype Step =
    | Publish(id: nat)           // a new workload appears at the explorer
    | PollOk(batch: seq<nat>, lastID: nat, eos: bool)
    | PollRetry
    | PollSkip(lastID: nat)      // an error that is not retried
    | PollSend
    | PollDone
    | Expire(ids: seq<nat>)
    | ExpirySend
    | DeliverPoll
    | DeliverExpiry
    | Finish
    | Kick
    | Midnight
    | CronSend
    | CleanUp
    | Cancel

  /** The explorer returns workloads of the node, and every one from the cursor to the last id. */
  ghost predicate Complete(w: World, batch: seq<nat>, lastID: nat) {
    && (forall id :: id in batch ==> id in w.store)
    && (forall id :: id in w.store && w.next <= id <= lastID ==> id in batch)
  }

  ghost function Next(w: World, step: Step): World {
    match step
    case Publish(id) =>
      // new ids are above everything the explorer has accounted for
      if id > w.horizon then w.(store := w.store + {id}) else w
    case PollOk(batch, lastID, eos) =>
      if !w.poll.Polling? || !Complete(w, batch, lastID) then w
      else
        var asked := w.(next := lastID + 1, horizon := if lastID > w.horizon then lastID else w.horizon);
        if w.cancelled then asked.(poll := Stopped(true))
        else asked.(poll := Sending(batch, w.triggerCleanup && w.previousLastID == lastID, lastID, eos))
    case PollRetry => w
    case PollSkip(lastID) =>
      if w.poll.Polling? then w.(next := lastID + 1) else w
    case PollSend =>
      if !w.poll.Sending? || w.pollFwd.Some? then w
      else if w.poll.jobs != [] then
        var msg := Job(w.poll.jobs[0]);
        w.(pollFwd := Some(msg), sent := w.sent + [msg], poll := w.poll.(jobs := w.poll.jobs[1..]))
      else if w.poll.mark then
        w.(pollFwd := Some(Last), sent := w.sent + [Last], poll := w.poll.(mark := false),
           triggerCleanup := false, markerCursor := w.next)
      else w
    case PollDone =>
      if w.poll.Sending? && w.poll.jobs == [] && !w.poll.mark
      then w.(previousLastID := w.poll.lastID, poll := if w.poll.eos then Stopped(false) else Polling)
      else w
    case Expire(ids) =>
      if w.expired == [] then w.(expired := ids, due := w.due + ids) else w
    case ExpirySend =>
      if w.expired != [] && w.expiryFwd.None?
      then w.(expiryFwd := Some(Job(w.expired[0])), expired := w.expired[1..]) else w
    case DeliverPoll =>
      if !w.engine.Ready? || w.pollFwd.None? then w
      else if w.pollFwd.value.Last?
      then w.(pollFwd := None, engine := Kicking, allProcessed := true, handled := w.handled + [Last])
      else w.(pollFwd := None, engine := Handling(w.pollFwd.value, FromPoll))
    case DeliverExpiry =>
      if w.engine.Ready? && w.expiryFwd.Some?
      then w.(expiryFwd := None, engine := Handling(w.expiryFwd.value, FromExpiry)) else w
    case Finish =>
      if w.engine.Handling?
      then w.(engine := Ready,
              handled := if w.engine.origin == FromPoll then w.handled + [w.engine.msg] else w.handled,
              ended := if w.engine.origin == FromExpiry then w.ended + [w.engine.msg] else w.ended)
      else w
    case Kick =>
      if w.engine.Kicking? && w.cleanUp < 2 then w.(engine := Ready, cleanUp := w.cleanUp + 1) else w
    case Midnight => w.(cronWaiting := w.cronWaiting + 1)
    case CronSend =>
      if w.cronWaiting > 0 && w.cleanUp < 2
      then w.(cronWaiting := w.cronWaiting - 1, cleanUp := w.cleanUp + 1) else w
    case CleanUp =>
      if w.engine.Ready? && w.cleanUp > 0
      then w.(cleanUp := w.cleanUp - 1, runs := if w.allProcessed then w.runs + [|w.handled|] else w.runs)
      else w
    case Cancel => w.(cancelled := true)
  }

  ghost function Run(w: World, steps: seq<Step>): World {
    if |steps| == 0 then w else Next(Run(w, steps[..|steps| - 1]), steps[|steps| - 1])
  }

  function Start(store: set<nat>): World {
    World(store, 0, 0, 0, true, Polling, [], [], None, None, Ready, false, [], 0, 0, false, [], 0, [], [])
  }

  // ---------------------------------------------------------------- order

  /** What the engine is working on, of the poll source. */
  function InEngine(w: World): seq<Msg> {
    if w.engine.Handling? && w.engine.origin == FromPoll then [w.engine.msg] else []
  }

  function InForwarder(w: World): seq<Msg> {
    if w.pollFwd.Some? then [w.pollFwd.value] else []
  }

  /** Messages arrive in the order in which they were sent: handled, in hand, on the way. */
  ghost predicate InOrder(w: World) {
    w.sent == w.handled + InEngine(w) + InForwarder(w)
  }

  lemma NextInOrder(w: World, step: Step)
    requires InOrder(w)
    ensures InOrder(Next(w, step))
  {
    match step
    case PollSend => SendInOrder(w);
    case DeliverPoll => DeliverInOrder(w);
    case Finish => FinishInOrder(w);
    case _ =>
  }

  lemma SendInOrder(w: World)
    requires InOrder(w)
    ensures InOrder(Next(w, PollSend))
  {
  }

  lemma DeliverInOrder(w: World)
    requires InOrder(w)
    ensures InOrder(Next(w, DeliverPoll))
  {
  }

  lemma FinishInOrder(w: World)
    requires InOrder(w)
    ensures InOrder(Next(w, Finish))
  {
  }

  // ---------------------------------------------------------------- order of the decommission source

  function Jobs(ids: seq<nat>): seq<Msg> {
    if ids == [] then [] else [Job(ids[0])] + Jobs(ids[1..])
  }

  lemma {:induction false} JobsJoin(a: seq<nat>, b: seq<nat>)
    ensures Jobs(a + b) == Jobs(a) + Jobs(b)
    decreases |a|
  {
    if a == [] {
      assert a + b == b;
    } else {
      JobsJoin(a[1..], b);
      assert (a + b)[1..] == a[1..] + b;
    }
  }

  function EndingInEngine(w: World): seq<Msg> {
    if w.engine.Handling? && w.engine.origin == FromExpiry then [w.engine.msg] else []
  }

  function ExpiryInForwarder(w: World): seq<Msg> {
    if w.expiryFwd.Some? then [w.expiryFwd.value] else []
  }

  /** What was found expired has been dealt with, is in hand, on the way, or still to be sent, in that order. */
  ghost predicate ExpiryInOrder(w: World) {
    Jobs(w.due) == w.ended + EndingInEngine(w) + ExpiryInForwarder(w) + Jobs(w.expired)
  }

  lemma ExpireInOrder(w: World, ids: seq<nat>)
    requires ExpiryInOrder(w)
    ensures ExpiryInOrder(Next(w, Expire(ids)))
  {
    JobsJoin(w.due, ids);
    if w.expired == [] {
      assert Jobs(w.due) == w.ended + EndingInEngine(w) + ExpiryInForwarder(w);
    }
  }

  lemma ExpirySendInOrder(w: World)
    requires ExpiryInOrder(w)
    ensures ExpiryInOrder(Next(w, ExpirySend))
  {
  }

  lemma DeliverExpiryInOrder(w: World)
    requires ExpiryInOrder(w)
    ensures ExpiryInOrder(Next(w, DeliverExpiry))
  {
  }

  lemma FinishExpiryInOrder(w: World)
    requires ExpiryInOrder(w)
    ensures ExpiryInOrder(Next(w, Finish))
  {
    var v := Next(w, Finish);
    assert v.ended + EndingInEngine(v) == w.ended + EndingInEngine(w);
  }

  lemma NextExpiryInOrder(w: World, step: Step)
    requires ExpiryInOrder(w)
    ensures ExpiryInOrder(Next(w, step))
  {
    match step
    case Expire(ids) => ExpireInOrder(w, ids);
    case ExpirySend => ExpirySendInOrder(w);
    case DeliverExpiry => DeliverExpiryInOrder(w);
    case Finish => FinishExpiryInOrder(w);
    case _ =>
      OthersKeepExpiry(w, step);
      OthersKeepEnding(w, step);
      SameExpiry(w, Next(w, step));
  }

  lemma OthersKeepExpiry(w: World, step: Step)
    requires !step.Expire? && !step.ExpirySend? && !step.DeliverExpiry? && !step.Finish?
    ensures
      var v := Next(w, step);
      v.due == w.due && v.ended == w.ended && v.expired == w.expired && v.expiryFwd == w.expiryFwd
  {
  }

  lemma OthersKeepEnding(w: World, step: Step)
    requires !step.DeliverExpiry? && !step.Finish?
    ensures EndingInEngine(Next(w, step)) == EndingInEngine(w)
  {
  }

  lemma SameExpiry(w: World, v: World)
    requires ExpiryInOrder(w) && v.due == w.due && v.ended == w.ended && v.expired == w.expired
    requires v.expiryFwd == w.expiryFwd && EndingInEngine(v) == EndingInEngine(w)
    ensures ExpiryInOrder(v)
  {
  }

  /** In every interleaving the jobs of the decommission source reach the engine, all of them and in order. */
  lemma {:induction false} NoExpiryIsLost(store: set<nat>, steps: seq<Step>)
    ensures ExpiryInOrder(Run(Start(store), steps))
    decreases |steps|
  {
    if |steps| != 0 {
      NoExpiryIsLost(store, steps[..|steps| - 1]);
      NextExpiryInOrder(Run(Start(store), steps[..|steps| - 1]), steps[|steps| - 1]);
    }
  }

  // ---------------------------------------------------------------- marker

  ghost predicate OneMarker(w: World) {
    && (forall i, j :: 0 <= i < |w.sent| && 0 <= j < |w.sent| && w.sent[i] == Last && w.sent[j] == Last ==> i == j)
    && (w.triggerCleanup ==> Last !in w.sent)
    && (w.poll.Sending? && w.poll.mark ==> w.triggerCleanup)
  }

  lemma NextOneMarker(w: World, step: Step)
    requires OneMarker(w)
    ensures OneMarker(Next(w, step))
  {
  }

  /** The gate of the clean-up opens exactly when the engine has taken the marker. */
  ghost predicate GateIsMarker(w: World) {
    && (w.allProcessed <==> Last in w.handled)
    && (w.engine.Handling? ==> w.engine.msg.Job?)
    && (w.expiryFwd.Some? ==> w.expiryFwd.value.Job?)
  }

  lemma NextGateIsMarker(w: World, step: Step)
    requires GateIsMarker(w)
    ensures GateIsMarker(Next(w, step))
  {
  }

  /** Each run of the janitor comes after the marker. */
  ghost predicate RunsAfterMarker(w: World) {
    forall r :: r in w.runs ==> r <= |w.handled| && Last in w.handled[..r]
  }

  lemma HandledGrows(w: World, step: Step)
    ensures w.handled <= Next(w, step).handled
  {
  }

  lemma NextRunsAfterMarker(w: World, step: Step)
    requires GateIsMarker(w) && RunsAfterMarker(w)
    ensures RunsAfterMarker(Next(w, step))
  {
    var w' := Next(w, step);
    HandledGrows(w, step);
    forall r | r in w'.runs ensures r <= |w'.handled| && Last in w'.handled[..r] {
      if r in w.runs {
        assert w'.handled[..r] == w.handled[..r];
      } else {
        assert w'.handled[..r] == w.handled;
      }
    }
  }

  // ---------------------------------------------------------------- coverage

  /** The workloads the poll source still has to send from its last answer. */
  function Pending(w: World): seq<nat> {
    if w.poll.Sending? then w.poll.jobs else []
  }

  /** Every workload below the cursor has been sent or is about to be. */
  ghost predicate Covered(w: World) {
    forall id :: id in w.store && id < w.next && w.poll != Stopped(true)
      ==> Job(id) in w.sent || id in Pending(w)
  }

  /** Ids start at one, and the explorer publishes none at or below an id it has reported as last. */
  ghost predicate CursorBelowHorizon(w: World) {
    0 !in w.store && w.next <= w.horizon + 1 && w.markerCursor <= w.horizon + 1
  }

  /** Everything below the cursor at the time of the marker was sent ahead of the marker. */
  ghost predicate MarkerCovers(w: World) {
    forall m, id :: 0 <= m < |w.sent| && w.sent[m] == Last && id in w.store && id < w.markerCursor
      ==> Job(id) in w.sent[..m]
  }

  /** The poller reports last id zero together with an error. */
  predicate PollerStep(step: Step) {
    step.PollSkip? ==> step.lastID == 0
  }

  lemma NextCursorBelowHorizon(w: World, step: Step)
    requires CursorBelowHorizon(w) && PollerStep(step)
    ensures CursorBelowHorizon(Next(w, step))
  {
  }

  lemma NextCovered(w: World, step: Step)
    requires Covered(w) && CursorBelowHorizon(w) && PollerStep(step)
    ensures Covered(Next(w, step))
  {
    var w' := Next(w, step);
    forall id | id in w'.store && id < w'.next && w'.poll != Stopped(true)
      ensures Job(id) in w'.sent || id in Pending(w')
    {
      if id in w.store && id < w.next {
        SentOrPendingStays(w, step, id);
      }
    }
  }

  /** A workload that has been sent, or is in the batch being sent, stays so. */
  lemma SentOrPendingStays(w: World, step: Step, id: nat)
    requires Job(id) in w.sent || id in Pending(w)
    requires Next(w, step).poll != Stopped(true) || w.poll == Stopped(true)
    ensures Job(id) in Next(w, step).sent || id in Pending(Next(w, step))
  {
    match step
    case PollSend => SentOrPendingSend(w, id);
    case _ => OnlyPollSends(w, step);
  }

  lemma SentOrPendingSend(w: World, id: nat)
    requires Job(id) in w.sent || id in Pending(w)
    ensures Job(id) in Next(w, PollSend).sent || id in Pending(Next(w, PollSend))
  {
  }

  /** Nothing is sent by another step, and the marker is not moved. */
  lemma OnlyPollSends(w: World, step: Step)
    requires !step.PollSend?
    ensures Next(w, step).sent == w.sent && Next(w, step).markerCursor == w.markerCursor
  {
    match step
    case PollOk(_, _, _) =>
    case Finish =>
    case DeliverPoll =>
    case _ =>
  }

  lemma SentGrows(w: World, step: Step)
    ensures w.sent <= Next(w, step).sent
    ensures |Next(w, step).sent| > |w.sent| && Next(w, step).sent[|w.sent|] == Last
        ==> Next(w, step).markerCursor == w.next && Next(w, step).store == w.store
            && Pending(w) == [] && w.poll.Sending? && w.poll.mark
    ensures Next(w, step).markerCursor == w.markerCursor || |Next(w, step).sent| > |w.sent|
    ensures |Next(w, step).sent| <= |w.sent| + 1
    ensures |Next(w, step).sent| > |w.sent| && Next(w, step).sent[|w.sent|] != Last
        ==> Next(w, step).markerCursor == w.markerCursor
  {
    if !step.PollSend? {
      OnlyPollSends(w, step);
    }
  }

  lemma NextMarkerCovers(w: World, step: Step)
    requires MarkerCovers(w) && Covered(w) && CursorBelowHorizon(w) && OneMarker(w)
    ensures MarkerCovers(Next(w, step))
  {
    var w' := Next(w, step);
    SentGrows(w, step);
    forall m, id | 0 <= m < |w'.sent| && w'.sent[m] == Last && id in w'.store && id < w'.markerCursor
      ensures Job(id) in w'.sent[..m]
    {
      if m < |w.sent| {
        assert w.sent[m] == Last;
        assert w'.sent[..m] == w.sent[..m];
      } else {
        assert w'.sent[..m] == w.sent;
      }
    }
  }

  // ---------------------------------------------------------------- every interleaving

  ghost predicate Inv(w: World) {
    && InOrder(w) && OneMarker(w) && GateIsMarker(w) && RunsAfterMarker(w)
    && CursorBelowHorizon(w) && Covered(w) && MarkerCovers(w)
  }

  lemma NextInv(w: World, step: Step)
    requires Inv(w) && PollerStep(step)
    ensures Inv(Next(w, step))
  {
    NextInOrder(w, step);
    NextOneMarker(w, step);
    NextGateIsMarker(w, step);
    NextRunsAfterMarker(w, step);
    NextCursorBelowHorizon(w, step);
    NextCovered(w, step);
    NextMarkerCovers(w, step);
  }

  ghost predicate Interleaving(store: set<nat>, steps: seq<Step>) {
    0 !in store && forall i :: 0 <= i < |steps| ==> PollerStep(steps[i])
  }

  lemma {:induction false} RunInv(store: set<nat>, steps: seq<Step>)
    requires Interleaving(store, steps)
    ensures Inv(Run(Start(store), steps))
    decreases |steps|
  {
    if |steps| != 0 {
      RunInv(store, steps[..|steps| - 1]);
      NextInv(Run(Start(store), steps[..|steps| - 1]), steps[|steps| - 1]);
    }
  }

  /** Nothing is lost: every workload below the cursor has been sent or is in the batch being sent. */
  lemma NothingIsLost(store: set<nat>, steps: seq<Step>, id: nat)
    requires Interleaving(store, steps)
    requires
      var w := Run(Start(store), steps);
      w.poll != Stopped(true) && id in w.store && id < w.next
    ensures
      var w := Run(Start(store), steps);
      Job(id) in w.sent || id in Pending(w)
  {
    RunInv(store, steps);
  }

  /** The marker is sent at most once. */
  lemma MarkerAtMostOnce(store: set<nat>, steps: seq<Step>, i: nat, j: nat)
    requires Interleaving(store, steps)
    requires
      var sent := Run(Start(store), steps).sent;
      i < |sent| && j < |sent| && sent[i] == Last && sent[j] == Last
    ensures i == j
  {
    RunInv(store, steps);
  }

  /**
   * Cleanup ordering: whenever the janitor has run, the engine had dealt with the marker and, in the
   * order of sending, with every job sent ahead of it; and these were all the workloads of the node
   * below the cursor the poll source had reached when it sent the marker.
   */
  lemma JanitorWaitsForHistory(store: set<nat>, steps: seq<Step>, r: nat) returns (m: nat)
    requires Interleaving(store, steps) && r in Run(Start(store), steps).runs
    ensures
      var w := Run(Start(store), steps);
      && m < r <= |w.handled| && w.handled <= w.sent
      && w.sent[m] == Last
      && forall id :: id in w.store && id < w.markerCursor ==> Job(id) in w.handled[..m]
  {
    RunInv(store, steps);
    var w := Run(Start(store), steps);
    assert Last in w.handled[..r];
    m :| 0 <= m < r && w.handled[m] == Last;
    assert w.handled == w.sent[..|w.handled|];
    assert w.handled[..m] == w.sent[..m];
  }

  // ---------------------------------------------------------------- an error that skips

  /** A poll that asks from the cursor on is not answered with older workloads. */
  ghost predicate FromCursor(w: World, step: Step) {
    step.PollOk? ==> forall id :: id in step.batch ==> w.next <= id
  }

  /** The step does not move the cursor to `id` or below it. */
  predicate StaysAbove(step: Step, id: nat) {
    (step.PollOk? || step.PollSkip?) ==> id <= step.lastID
  }

  /** The workload has not been sent, is not about to be, and lies below the cursor. */
  ghost predicate PassedOver(w: World, id: nat) {
    Job(id) !in w.sent && id !in Pending(w) && id < w.next
  }

  lemma NextPassedOver(w: World, step: Step, id: nat)
    requires PassedOver(w, id) && FromCursor(w, step) && StaysAbove(step, id)
    ensures PassedOver(Next(w, step), id)
  {
  }

  /**
   * An error with a last id other than zero would lose workloads: one that is skipped unsent is not sent
   * in any run that does not move the cursor back to it, whatever else happens.
   */
  lemma {:induction false} SkippedStaysUnsent(w: World, lastID: nat, id: nat, steps: seq<Step>)
    requires w.poll.Polling? && Job(id) !in w.sent && id <= lastID
    requires
      var skipped := Next(w, PollSkip(lastID));
      forall i :: 0 <= i < |steps| ==> FromCursor(Run(skipped, steps[..i]), steps[i]) && StaysAbove(steps[i], id)
    ensures PassedOver(Run(Next(w, PollSkip(lastID)), steps), id)
    decreases |steps|
  {
    if |steps| != 0 {
      var n := |steps| - 1;
      forall i | 0 <= i <= n ensures steps[..n][..i] == steps[..i] {
      }
      SkippedStaysUnsent(w, lastID, id, steps[..n]);
      NextPassedOver(Run(Next(w, PollSkip(lastID)), steps[..n]), steps[n], id);
    }
  }

  /** Moving the cursor back, as an error with last id zero does, brings it into the next complete answer. */
  lemma ResetRecovers(w: World, id: nat, batch: seq<nat>, lastID: nat, eos: bool)
    requires w.poll.Polling? && !w.cancelled && id in w.store && 1 <= id <= lastID
    requires Complete(Next(w, PollSkip(0)), batch, lastID)
    ensures id in Pending(Next(Next(w, PollSkip(0)), PollOk(batch, lastID, eos)))
  {
  }

  lemma Reach(w: World, steps: seq<Step>, before: World, step: Step, after: World)
    requires Run(w, steps) == before && Next(before, step) == after
    ensures Run(w, steps + [step]) == after
  {
    assert (steps + [step])[..|steps|] == steps;
  }

  /** An error skips the only workload, and the next answer is empty. */
  function SkipFirst(): seq<Step> {
    [] + [PollSkip(1)] + [PollOk([], 1, false)] + [PollDone]
  }

  function AfterSkip(): World {
    Start({1}).(next := 2, horizon := 1, previousLastID := 1)
  }

  lemma SkippedFirst()
    ensures Run(Start({1}), SkipFirst()) == AfterSkip()
  {
    var w := Start({1});
    var asked := w.(next := 2, horizon := 1, poll := Sending([], false, 1, false));
    ReachTwo(w, [], PollSkip(1), PollOk([], 1, false));
    SkipsOne(w);
    Reach(w, [] + [PollSkip(1)] + [PollOk([], 1, false)], asked, PollDone, AfterSkip());
  }

  lemma SkipsOne(w: World)
    requires w == Start({1})
    ensures Next(Next(w, PollSkip(1)), PollOk([], 1, false)) ==
            w.(next := 2, horizon := 1, poll := Sending([], false, 1, false))
  {
  }

  /** The same last id again: the marker is sent and delivered. */
  function SkipThenMark(): seq<Step> {
    SkipFirst() + [PollOk([], 1, false)] + [PollSend] + [DeliverPoll]
  }

  function AfterMark(): World {
    AfterSkip().(poll := Sending([], false, 1, false), sent := [Last], triggerCleanup := false, markerCursor := 2,
                 engine := Kicking, allProcessed := true, handled := [Last])
  }

  lemma SkippedThenMarked()
    ensures Run(Start({1}), SkipThenMark()) == AfterMark()
  {
    SkippedFirst();
    MarkedAfterSkip(Start({1}), SkipFirst());
  }

  lemma MarkedAfterSkip(w: World, steps: seq<Step>)
    requires Run(w, steps) == AfterSkip()
    ensures Run(w, steps + [PollOk([], 1, false)] + [PollSend] + [DeliverPoll]) == AfterMark()
  {
    ReachTwo(w, steps, PollOk([], 1, false), PollSend);
    var sent := MarkerSent(AfterSkip());
    Reach(w, steps + [PollOk([], 1, false)] + [PollSend], sent, DeliverPoll, AfterMark());
  }

  lemma MarkerSent(w: World) returns (sent: World)
    requires w == AfterSkip()
    ensures sent == w.(poll := Sending([], false, 1, false), sent := [Last], triggerCleanup := false, markerCursor := 2,
                       pollFwd := Some(Last))
    ensures Next(Next(w, PollOk([], 1, false)), PollSend) == sent
  {
    var asked := w.(poll := Sending([], true, 1, false));
    assert Next(w, PollOk([], 1, false)) == asked;
    sent := Next(asked, PollSend);
  }

  /** A workload is skipped, and the janitor runs although the engine has never seen it. */
  lemma JanitorRunsWithoutSkipped()
    ensures
      var w := Run(Start({1}), SkipThenMark() + [Kick] + [CleanUp]);
      1 in w.store && w.markerCursor == 2 && w.runs == [1] && w.handled == [Last]
  {
    SkippedThenMarked();
    CleanedUp(Start({1}), SkipThenMark());
  }

  lemma CleanedUp(w: World, steps: seq<Step>)
    requires Run(w, steps) == AfterMark()
    ensures Run(w, steps + [Kick] + [CleanUp]) == AfterMark().(engine := Ready, runs := [1])
  {
    CleansUp(AfterMark());
    ReachTwo(w, steps, Kick, CleanUp);
  }

  lemma CleansUp(w: World)
    requires w.engine.Kicking? && w.cleanUp == 0 && w.allProcessed && w.handled == [Last] && w.runs == []
    ensures Next(Next(w, Kick), CleanUp) == w.(engine := Ready, runs := [1])
  {
    assert [] + [|w.handled|] == [1];
  }

  lemma ReachTwo(w: World, steps: seq<Step>, a: Step, b: Step)
    ensures Run(w, steps + [a] + [b]) == Next(Next(Run(w, steps), a), b)
  {
    assert (steps + [a])[..|steps|] == steps;
    assert (steps + [a] + [b])[..|steps| + 1] == steps + [a];
  }

  // ---------------------------------------------------------------- the engine can block itself

  /** The engine waits to send on the full channel that only it empties. */
  ghost predicate Stuck(w: World) {
    w.engine.Kicking? && w.cleanUp == 2
  }

  /** Once stuck, the engine stays stuck and handles nothing more, whatever happens around it. */
  lemma {:induction false} StuckForever(w: World, steps: seq<Step>)
    requires Stuck(w)
    ensures Stuck(Run(w, steps)) && Run(w, steps).handled == w.handled
    decreases |steps|
  {
    if |steps| != 0 {
      StuckForever(w, steps[..|steps| - 1]);
      StaysStuck(Run(w, steps[..|steps| - 1]), steps[|steps| - 1]);
    }
  }

  lemma StaysStuck(w: World, step: Step)
    requires Stuck(w)
    ensures Stuck(Next(w, step)) && Next(w, step).handled == w.handled
  {
  }

  /** A step makes the engine stuck exactly when it hands it the marker while two clean-ups wait. */
  lemma StuckIff(w: World, step: Step)
    requires !Stuck(w) && w.cleanUp <= 2
    ensures Stuck(Next(w, step)) <==>
      || (step.DeliverPoll? && w.engine.Ready? && w.pollFwd == Some(Last) && w.cleanUp == 2)
      || (step.CronSend? && w.engine.Kicking? && w.cleanUp == 1 && w.cronWaiting > 0)
  {
  }

  /** One job is on its way to the engine. */
  function JobDelivered(): seq<Step> {
    [] + [PollOk([1], 1, false)] + [PollSend] + [DeliverPoll]
  }

  function AfterJob(): World {
    Start({1}).(next := 2, horizon := 1, poll := Sending([], false, 1, false), sent := [Job(1)],
                engine := Handling(Job(1), FromPoll))
  }

  lemma DeliversJob()
    ensures Run(Start({1}), JobDelivered()) == AfterJob()
  {
    JobFollows(Start({1}), []);
  }

  lemma JobFollows(w: World, steps: seq<Step>)
    requires Run(w, steps) == Start({1})
    ensures Run(w, steps + [PollOk([1], 1, false)] + [PollSend] + [DeliverPoll]) == AfterJob()
  {
    ReachTwo(w, steps, PollOk([1], 1, false), PollSend);
    var sent := JobSent(Start({1}));
    JobTaken(sent);
    Reach(w, steps + [PollOk([1], 1, false)] + [PollSend], sent, DeliverPoll, AfterJob());
  }

  function WithJobSent(w: World): World {
    w.(next := 2, horizon := 1, poll := Sending([], false, 1, false), sent := [Job(1)], pollFwd := Some(Job(1)))
  }

  lemma JobSent(w: World) returns (sent: World)
    requires w == Start({1})
    ensures sent == WithJobSent(w) && Next(Next(w, PollOk([1], 1, false)), PollSend) == sent
  {
    var asked := w.(next := 2, horizon := 1, poll := Sending([1], false, 1, false));
    assert Next(w, PollOk([1], 1, false)) == asked;
    assert asked.poll.jobs[1..] == [];
    sent := Next(asked, PollSend);
  }

  lemma JobTaken(sent: World)
    requires sent == WithJobSent(Start({1}))
    ensures Next(sent, DeliverPoll) == AfterJob()
  {
  }

  /** While the engine handles it, the marker comes to wait behind it. */
  function MarkerWaiting(): seq<Step> {
    JobDelivered() + [PollDone] + [PollOk([], 1, false)] + [PollSend]
  }

  function AfterMarker(): World {
    AfterJob().(previousLastID := 1, sent := [Job(1)] + [Last], triggerCleanup := false, markerCursor := 2,
                pollFwd := Some(Last))
  }

  lemma MarkerWaits()
    ensures Run(Start({1}), MarkerWaiting()) == AfterMarker()
  {
    DeliversJob();
    MarkerFollows(Start({1}), JobDelivered());
  }

  lemma MarkerFollows(w: World, steps: seq<Step>)
    requires Run(w, steps) == AfterJob()
    ensures Run(w, steps + [PollDone] + [PollOk([], 1, false)] + [PollSend]) == AfterMarker()
  {
    var asked := AfterJob().(previousLastID := 1, poll := Sending([], true, 1, false));
    ReachTwo(w, steps, PollDone, PollOk([], 1, false));
    AsksAgain(AfterJob());
    Reach(w, steps + [PollDone] + [PollOk([], 1, false)], asked, PollSend, AfterMarker());
  }

  lemma AsksAgain(w: World)
    requires w.poll == Sending([], false, 1, false) && w.store == {1} && w.next == 2 && w.horizon == 1
    requires !w.cancelled && w.triggerCleanup
    ensures Next(Next(w, PollDone), PollOk([], 1, false)) == w.(previousLastID := 1, poll := Sending([], true, 1, false))
  {
  }

  /** Two midnights go by, and both clean-ups find room in the channel. */
  function MidnightsPass(): seq<Step> {
    MarkerWaiting() + [Midnight] + [CronSend] + [Midnight] + [CronSend]
  }

  lemma MidnightsQueueUp()
    ensures Run(Start({1}), MidnightsPass()) == AfterMarker().(cleanUp := 2)
  {
    MarkerWaits();
    MidnightPasses(Start({1}), MarkerWaiting(), AfterMarker());
    MidnightPasses(Start({1}), MarkerWaiting() + [Midnight] + [CronSend], AfterMarker().(cleanUp := 1));
  }

  lemma MidnightPasses(w: World, steps: seq<Step>, m: World)
    requires Run(w, steps) == m && m.cronWaiting == 0 && m.cleanUp < 2
    ensures Run(w, steps + [Midnight] + [CronSend]) == m.(cleanUp := m.cleanUp + 1)
  {
    ReachTwo(w, steps, Midnight, CronSend);
    MidnightQueues(m);
  }

  lemma MidnightQueues(w: World)
    requires w.cronWaiting == 0 && w.cleanUp < 2
    ensures Next(Next(w, Midnight), CronSend) == w.(cleanUp := w.cleanUp + 1)
  {
  }

  /** A job that is handled across two midnights, with the marker behind it, blocks the engine for good. */
  lemma TwoMidnightsBlock()
    ensures Stuck(Run(Start({1}), MidnightsPass() + [Finish] + [DeliverPoll]))
  {
    MidnightsQueueUp();
    TakesMarker(Start({1}), MidnightsPass(), AfterMarker().(cleanUp := 2));
  }

  lemma TakesMarker(w: World, steps: seq<Step>, m: World)
    requires Run(w, steps) == m && m.engine.Handling? && m.pollFwd == Some(Last) && m.cleanUp == 2
    ensures Stuck(Run(w, steps + [Finish] + [DeliverPoll]))
  {
    ReachTwo(w, steps, Finish, DeliverPoll);
  }

  // ---------------------------------------------------------------- when the marker is due

  /** The step is an answer of the explorer that the poll source takes up. */
  ghost predicate Answered(w: World, step: Step) {
    step.PollOk? && w.poll.Polling? && Complete(w, step.batch, step.lastID) && !w.cancelled
  }

  /** The last ids of the answers in a run, in order. */
  ghost function Answers(w: World, steps: seq<Step>): seq<nat> {
    if steps == [] then []
    else
      var (front, last) := (steps[..|steps| - 1], steps[|steps| - 1]);
      Answers(w, front) + if Answered(Run(w, front), last) then [last.lastID] else []
  }

  /** The last id at the end of the answers, zero before the first. */
  function Final(answers: seq<nat>): nat {
    if answers == [] then 0 else answers[|answers| - 1]
  }

  /** What the poll source remembers of the answers. */
  ghost predicate Remembers(w: World, answers: seq<nat>) {
    && (w.poll.Polling? ==> w.previousLastID == Final(answers))
    && (w.poll.Sending? ==>
          && answers != [] && w.poll.lastID == Final(answers)
          && w.previousLastID == Final(answers[..|answers| - 1])
          && (w.poll.mark ==> w.poll.lastID == w.previousLastID))
  }

  lemma AnswerRemembered(w: World, step: Step, answers: seq<nat>)
    requires Remembers(w, answers) && step.PollOk?
    ensures Remembers(Next(w, step), answers + if Answered(w, step) then [step.lastID] else [])
  {
    if Answered(w, step) {
      assert (answers + [step.lastID])[..|answers|] == answers;
    } else {
      assert answers + [] == answers;
    }
  }

  lemma OthersRemembered(w: World, step: Step, answers: seq<nat>)
    requires Remembers(w, answers) && !step.PollOk?
    ensures Remembers(Next(w, step), answers)
  {
  }

  lemma {:induction false} RunRemembers(store: set<nat>, steps: seq<Step>)
    ensures Remembers(Run(Start(store), steps), Answers(Start(store), steps))
    decreases |steps|
  {
    if |steps| != 0 {
      var (front, last) := (steps[..|steps| - 1], steps[|steps| - 1]);
      RunRemembers(store, front);
      var (w, answers) := (Run(Start(store), front), Answers(Start(store), front));
      if last.PollOk? {
        AnswerRemembered(w, last, answers);
      } else {
        OthersRemembered(w, last, answers);
        assert answers + [] == answers;
      }
    }
  }

  /** In every interleaving the marker is sent only after an answer that ended at the same last id as the one before. */
  lemma MarkerFollowsEqualAnswers(store: set<nat>, steps: seq<Step>, step: Step)
    requires Last !in Run(Start(store), steps).sent && Last in Next(Run(Start(store), steps), step).sent
    ensures
      var answers := Answers(Start(store), steps);
      answers != [] && Final(answers) == Final(answers[..|answers| - 1])
  {
    RunRemembers(store, steps);
    SendsMarker(Run(Start(store), steps), step);
  }

  lemma SendsMarker(w: World, step: Step)
    requires Last !in w.sent && Last in Next(w, step).sent
    ensures step.PollSend? && w.poll.Sending? && w.poll.mark
  {
  }

  /** And such an answer, while no marker was sent, has one at its end. */
  lemma EqualAnswerIsMarked(w: World, step: Step)
    requires Answered(w, step)
    ensures
      var v := Next(w, step);
      && v.poll.Sending? && v.poll.jobs == step.batch && v.next == step.lastID + 1
      && (v.poll.mark <==> w.triggerCleanup && step.lastID == w.previousLastID)
  {
  }

  /** The jobs of an answer are sent one after the other, then the marker if there is one, then it is done. */
  lemma SendsInTurn(w: World)
    requires w.poll.Sending? && w.pollFwd.None?
    ensures
      var v := Next(w, PollSend);
      if w.poll.jobs != [] then v.sent == w.sent + [Job(w.poll.jobs[0])] && v.poll == w.poll.(jobs := w.poll.jobs[1..])
      else if w.poll.mark then v.sent == w.sent + [Last] && v.poll == w.poll.(mark := false) && !v.triggerCleanup
      else v == w && Next(w, PollDone).poll == if w.poll.eos then Stopped(false) else Polling
  {
  }
}
