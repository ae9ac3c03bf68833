/** One poll of the explorer (pkg/provision/explorer/source.go:46-76). */
module Poller {
  import opened Primitives
  import opened Sorting
  import S = Sources

  /** What the conversion makes of one workload sent by the explorer. */
  datatype Conversion = Converted(r: Reservation) | Unsupported | Broken

  datatype Reply = Unreachable | Workloads(list: seq<Conversion>, lastID: nat)

  function Supported(list: seq<Conversion>): seq<Reservation> {
    if list == [] then []
    else
      var rest := Supported(list[..|list| - 1]);
      var last := list[|list| - 1];
      if last.Converted? then rest + [last.r] else rest
  }

  /**
   * All supported workloads, in the order in which their kinds have to be deployed; an error always
   * comes with last id zero, so the cursor of the source falls back to the first reservation.
   */
  ghost predicate Polled(reply: Reply, order: Kind -> int, ok: bool, result: seq<Reservation>, lastID: nat) {
    && (ok <==> reply.Workloads? && Broken !in reply.list)
    && (!ok ==> result == [] && lastID == 0)
    && (ok ==>
          && lastID == reply.lastID
          && multiset(result) == multiset(Supported(reply.list))
          && SortedBy(result, (r: Reservation) => order(r.kind)))
  }

  method Poll(reply: Reply, order: Kind -> int)
    returns (ok: bool, result: seq<Reservation>, lastID: nat)
    ensures Polled(reply, order, ok, result, lastID)
  {
    if reply.Unreachable? { return false, [], 0; }
    result := [];
    for i := 0 to |reply.list|
      invariant result == Supported(reply.list[..i])
      invariant Broken !in reply.list[..i]
    {
      assert reply.list[..i + 1][..i] == reply.list[..i];
      match reply.list[i]
      case Converted(r) => result := result + [r];
      case Unsupported =>
      case Broken => return false, [], 0;
    }
    assert reply.list[..|reply.list|] == reply.list;
    return true, Sort(result, (r: Reservation) => order(r.kind)), reply.lastID;
  }

  /** Nothing is filtered out but what the node cannot run. */
  lemma {:induction false} SupportedKeepsAll(list: seq<Conversion>, r: Reservation)
    ensures r in Supported(list) <==> Converted(r) in list
    decreases |list|
  {
    if list != [] {
      SupportedKeepsAll(list[..|list| - 1], r);
      assert list == list[..|list| - 1] + [list[|list| - 1]];
    }
  }

  // ---------------------------------------------------------------- the poller as the source sees it

  function Numbers(result: seq<Reservation>, number: Id -> nat): seq<nat> {
    if result == [] then [] else Numbers(result[..|result| - 1], number) + [number(result[|result| - 1].id)]
  }

  lemma {:induction false} NumbersAt(result: seq<Reservation>, number: Id -> nat, i: nat)
    requires i < |result|
    ensures |Numbers(result, number)| == |result| && Numbers(result, number)[i] == number(result[i].id)
  {
    if i < |result| - 1 {
      NumbersAt(result[..|result| - 1], number, i);
    } else if |result| > 1 {
      NumbersAt(result[..|result| - 1], number, 0);
    }
  }

  /** The step of the poll source on what the poller returns; an error may or may not be worth a retry. */
  function SourceStep(ok: bool, result: seq<Reservation>, lastID: nat, retry: bool, number: Id -> nat): S.Step {
    if ok then S.PollOk(Numbers(result, number), lastID, false)
    else if retry then S.PollRetry
    else S.PollSkip(lastID)
  }

  /** The explorer sends workloads of the node, and every supported one from the cursor to the last id. */
  ghost predicate Honest(w: S.World, reply: Reply, number: Id -> nat) {
    reply.Workloads? ==>
      && (forall r :: Converted(r) in reply.list ==> number(r.id) in w.store)
      && (forall id :: id in w.store && w.next <= id <= reply.lastID ==> Sends(reply, number, id))
  }

  ghost predicate Sends(reply: Reply, number: Id -> nat, id: nat)
    requires reply.Workloads?
  {
    exists r :: Converted(r) in reply.list && number(r.id) == id
  }

  /**
   * What the protocol asks of the poller is what the poller does: with an honest explorer, a successful poll
   * is a complete answer, and an error never skips.
   */
  lemma PollIsPollerStep(w: S.World, reply: Reply, order: Kind -> int, number: Id -> nat,
                         ok: bool, result: seq<Reservation>, lastID: nat, retry: bool)
    requires Polled(reply, order, ok, result, lastID) && Honest(w, reply, number)
    ensures S.PollerStep(SourceStep(ok, result, lastID, retry, number))
    ensures ok ==> S.Complete(w, Numbers(result, number), lastID)
  {
    if ok {
      var batch := Numbers(result, number);
      forall id | id in batch ensures id in w.store {
        if result != [] {
          NumbersAt(result, number, 0);
        }
        var i :| 0 <= i < |batch| && batch[i] == id;
        NumbersAt(result, number, i);
        SameElements(result, Supported(reply.list), result[i]);
        SupportedKeepsAll(reply.list, result[i]);
      }
      forall id | id in w.store && w.next <= id <= lastID ensures id in batch {
        assert Sends(reply, number, id);
        var r :| Converted(r) in reply.list && number(r.id) == id;
        SupportedKeepsAll(reply.list, r);
        SameElements(result, Supported(reply.list), r);
        var i :| 0 <= i < |result| && result[i] == r;
        NumbersAt(result, number, i);
      }
    }
  }
}
