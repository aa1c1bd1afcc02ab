/**
 * The orchestrator's termination rule. The signalling process and the message
 * process run concurrently; each is fused, so after it completes once it is
 * not polled again. The race is modelled by the order in which completions
 * are observed.
 */
module Orchestrator {
  import opened Wrappers

  /** The signalling process's error, carried through unchanged. */
  datatype SignallingError = SignallingError(reason: string)

  /** A completion observed by the select loop. */
  datatype Completion = MessageLoopDone | SignallingDone(result: Result<(), SignallingError>)

  /** Running: the select loop is still waiting; Finished: the socket future resolved. */
  datatype Outcome = Running | Finished(result: Result<(), SignallingError>)

  /** Index of the first message-process completion, |events| if there is none. */
  function FirstMessage(events: seq<Completion>): (k: nat)
    ensures k <= |events|
    ensures forall j :: 0 <= j < k ==> !events[j].MessageLoopDone?
    ensures k < |events| ==> events[k].MessageLoopDone?
    decreases |events|
  {
    if events == [] then 0
    else if events[0].MessageLoopDone? then 0
    else 1 + FirstMessage(events[1..])
  }

  /** Index of the first signalling completion, |events| if there is none. */
  function FirstSignalling(events: seq<Completion>): (k: nat)
    ensures k <= |events|
    ensures forall j :: 0 <= j < k ==> !events[j].SignallingDone?
    ensures k < |events| ==> events[k].SignallingDone?
    decreases |events|
  {
    if events == [] then 0
    else if events[0].SignallingDone? then 0
    else 1 + FirstSignalling(events[1..])
  }

  /**
   * The outcome table: a signalling error that comes before the message
   * process completes is the result; otherwise the message process's
   * completion ends the socket successfully; until then it keeps running.
   */
  function Decide(events: seq<Completion>): Outcome
  {
    var m, s := FirstMessage(events), FirstSignalling(events);
    if s < m && events[s].result.Err? then Finished(events[s].result)
    else if m < |events| then Finished(Ok(()))
    else Running
  }

  /**
   * The select loop. A completion of the message process breaks with Ok; a
   * signalling error returns it at once; a signalling success only removes
   * that process from the race. A second signalling completion is never
   * observed (the future is fused), so the loop skips it. The `complete` arm
   * needs both processes done, but the message process's completion has
   * already broken the loop, so it is never the arm that ends it.
   */
  method RunSocket(events: seq<Completion>) returns (outcome: Outcome)
    ensures outcome == Decide(events)
  {
    var signallingDone := false;
    var i := 0;
    while i < |events|
      invariant 0 <= i <= |events|
      invariant i <= FirstMessage(events)
      invariant signallingDone <==> FirstSignalling(events) < i
      invariant signallingDone ==> events[FirstSignalling(events)].result.Ok?
    {
      match events[i]
      case MessageLoopDone =>
        return Finished(Ok(()));
      case SignallingDone(r) =>
        if !signallingDone {
          if r.Err? {
            return Finished(r);
          }
          signallingDone := true;
        }
      i := i + 1;
    }
    outcome := Running;
  }

  /**
   * The result is the error e exactly when the first completion observed is
   * the signalling process failing with e: nothing can precede it, since any
   * earlier completion either ends the loop or removes signalling from it.
   */
  lemma SignallingErrorIff(events: seq<Completion>, e: SignallingError)
    ensures Decide(events) == Finished(Err(e)) <==>
      |events| > 0 && events[0] == SignallingDone(Err(e))
  {
  }

  /**
   * Otherwise the result is success, once the message process has completed:
   * Ok exactly when it completes and the first completion is not a
   * signalling error.
   */
  lemma OkIff(events: seq<Completion>)
    ensures Decide(events) == Finished(Ok(())) <==>
      MessageLoopDone in events && !(events[0].SignallingDone? && events[0].result.Err?)
  {
  }

  /** A successful signalling completion on its own never ends the socket. */
  lemma SignallingOkKeepsRunning(events: seq<Completion>)
    requires forall k :: 0 <= k < |events| ==> events[k] == SignallingDone(Ok(()))
    ensures Decide(events) == Running
  {
  }

  /** Both processes done, the signalling one successfully: the result is Ok, in either order. */
  lemma BothDoneIsOk(first: Completion, second: Completion)
    requires {first, second} == {MessageLoopDone, SignallingDone(Ok(()))}
    ensures Decide([first, second]) == Finished(Ok(()))
  {
    if first == MessageLoopDone {
      assert FirstMessage([first, second]) == 0;
    } else {
      assert first == SignallingDone(Ok(()));
      assert second == MessageLoopDone;
      assert [first, second][1..] == [second];
      assert FirstMessage([first, second]) == 1;
    }
  }

  /** The socket future resolves once: completions observed later never change a decided outcome. */
  lemma {:induction false} DecidedIsFinal(events: seq<Completion>, later: seq<Completion>)
    requires Decide(events).Finished?
    ensures Decide(events + later) == Decide(events)
  {
    var all := events + later;
    var m, s := FirstMessage(events), FirstSignalling(events);
    assert forall j :: 0 <= j < |events| ==> all[j] == events[j];
    if m < |events| {
      FirstIndexAgrees(events, later, m, true);
    }
    if s < |events| {
      FirstIndexAgrees(events, later, s, false);
    } else {
      assert FirstSignalling(all) >= |events|;
    }
  }

  /** The first completion of a kind found in a prefix is the first in any extension. */
  lemma FirstIndexAgrees(events: seq<Completion>, later: seq<Completion>, k: nat, message: bool)
    requires message ==> k == FirstMessage(events) && k < |events|
    requires !message ==> k == FirstSignalling(events) && k < |events|
    ensures message ==> FirstMessage(events + later) == k
    ensures !message ==> FirstSignalling(events + later) == k
  {
    var all := events + later;
    assert all[k] == events[k];
    assert forall j :: 0 <= j < k ==> all[j] == events[j];
  }

  /** What one channel's capacity-one readiness link yields when awaited. */
  datatype Readiness = Delivered | Closed | Waiting

  /**
   * Result of awaiting the readiness links in configured order: all ready,
   * still waiting on `channel`, or `channel`'s sender closed first (the
   * source panics there).
   */
  datatype ReadyOutcome = AllReady | Blocked(channel: nat) | SenderClosed(channel: nat)

  /** Awaits one readiness notification per channel, in order. */
  method WaitForReady(links: seq<Readiness>) returns (r: ReadyOutcome)
    ensures r.AllReady? <==> forall i :: 0 <= i < |links| ==> links[i].Delivered?
    ensures !r.AllReady? ==>
      r.channel < |links| && !links[r.channel].Delivered? &&
      (forall j :: 0 <= j < r.channel ==> links[j].Delivered?) &&
      (r.SenderClosed? <==> links[r.channel].Closed?)
  {
    for i := 0 to |links|
      invariant forall j :: 0 <= j < i ==> links[j].Delivered?
    {
      match links[i]
      case Delivered =>
      case Closed =>
        return SenderClosed(i);
      case Waiting =>
        return Blocked(i);
    }
    r := AllReady;
  }
}
