/**
 * The peer table and its change-diffing algorithm. Diff is the specification
 * of one drain of the peer-state queue; WebRtcSocket.UpdatePeers runs it as a
 * loop and the lemmas here say what it computes.
 */
module Peers {
  import opened Wrappers

  /** Opaque identifier of a remote peer (a UUID in the source). */
  datatype PeerId = PeerId(uuid: nat)

  /** Connectivity of a peer as this layer sees it. */
  datatype PeerState = Connected | Disconnected

  /** Last known state per peer. */
  type PeerTable = map<PeerId, PeerState>

  /** One event emitted by the message process. */
  type StateEvent = (PeerId, PeerState)

  /** HashMap::get: the recorded state of a peer, None if never seen. */
  function Recorded(t: PeerTable, id: PeerId): Option<PeerState>
  {
    if id in t then Some(t[id]) else None
  }

  /**
   * Drains `events` in order into the table `t`. Each event overwrites its
   * peer's entry and is reported only if it differs from the entry it
   * replaces. Returns the new table and the reported changes.
   */
  function Diff(t: PeerTable, events: seq<StateEvent>): (PeerTable, seq<StateEvent>)
    decreases |events|
  {
    if events == [] then (t, [])
    else
      var n := |events| - 1;
      var before := Diff(t, events[..n]);
      var e := events[n];
      var changed := if Recorded(before.0, e.0) != Some(e.1) then [e] else [];
      (before.0[e.0 := e.1], before.1 + changed)
  }

  /** The state the last event for `id` carries, None if `id` has no event. */
  function LastFor(events: seq<StateEvent>, id: PeerId): (r: Option<PeerState>)
    ensures r.None? <==> forall k :: 0 <= k < |events| ==> events[k].0 != id
    ensures r.Some? ==>
      exists k :: 0 <= k < |events| && events[k] == (id, r.value) &&
        forall j :: k < j < |events| ==> events[j].0 != id
    decreases |events|
  {
    if events == [] then None
    else
      var n := |events| - 1;
      if events[n].0 == id then Some(events[n].1)
      else
        var r := LastFor(events[..n], id);
        assert forall k :: 0 <= k < n ==> events[..n][k] == events[k];
        r
  }

  /** The state of `id` once `events` have been applied to `t`, read off the history. */
  function Prior(t: PeerTable, events: seq<StateEvent>, id: PeerId): Option<PeerState>
  {
    var last := LastFor(events, id);
    if last.Some? then last else Recorded(t, id)
  }

  /** Every peer that occurs in `events`. */
  function IdsOf(events: seq<StateEvent>): set<PeerId>
  {
    set k | 0 <= k < |events| :: events[k].0
  }

  /**
   * Reference for the change list: the events, in order, whose state differs
   * from what the history before them (over `t`) last said about their peer.
   */
  function Reported(t: PeerTable, events: seq<StateEvent>): seq<StateEvent>
    decreases |events|
  {
    if events == [] then []
    else
      var n := |events| - 1;
      var e := events[n];
      Reported(t, events[..n]) + if Prior(t, events[..n], e.0) != Some(e.1) then [e] else []
  }

  /** After a drain every peer holds the state of its last event, or its old entry if it had none. */
  lemma {:induction false} DiffTable(t: PeerTable, events: seq<StateEvent>, id: PeerId)
    ensures Recorded(Diff(t, events).0, id) == Prior(t, events, id)
    decreases |events|
  {
    if events != [] {
      DiffTable(t, events[..|events| - 1], id);
    }
  }

  /** Entries are only inserted or overwritten: the keys are the old keys plus the drained peers. */
  lemma {:induction false} DiffKeys(t: PeerTable, events: seq<StateEvent>)
    ensures Diff(t, events).0.Keys == t.Keys + IdsOf(events)
    decreases |events|
  {
    if events != [] {
      var n := |events| - 1;
      DiffKeys(t, events[..n]);
      forall x | x in IdsOf(events) ensures x in IdsOf(events[..n]) + {events[n].0} {
        var k :| 0 <= k < |events| && events[k].0 == x;
        if k < n {
          assert events[..n][k] == events[k];
        }
      }
      forall x | x in IdsOf(events[..n]) ensures x in IdsOf(events) {
        var k :| 0 <= k < n && events[..n][k].0 == x;
        assert events[k] == events[..n][k];
      }
    }
  }

  /** The change list is exactly the reference filter of the drained events. */
  lemma {:induction false} DiffChanges(t: PeerTable, events: seq<StateEvent>)
    ensures Diff(t, events).1 == Reported(t, events)
    decreases |events|
  {
    if events != [] {
      var n := |events| - 1;
      DiffChanges(t, events[..n]);
      DiffTable(t, events[..n], events[n].0);
    }
  }

  /** Draining more events only extends the change list of a shorter drain. */
  lemma {:induction false} DiffPrefix(t: PeerTable, events: seq<StateEvent>, m: nat)
    requires m <= |events|
    ensures Diff(t, events[..m]).1 <= Diff(t, events).1
    decreases |events| - m
  {
    if m < |events| {
      var n := |events| - 1;
      DiffPrefix(t, events[..n], m);
      assert events[..n][..m] == events[..m];
    } else {
      assert events[..m] == events;
    }
  }

  /** The first event ever seen for a peer the table does not know is always reported. */
  lemma FirstSightingReported(t: PeerTable, events: seq<StateEvent>, k: nat)
    requires k < |events|
    requires events[k].0 !in t
    requires forall j :: 0 <= j < k ==> events[j].0 != events[k].0
    ensures events[k] in Diff(t, events).1
  {
    var p := events[..k + 1];
    assert p[..k] == events[..k];
    var noEarlier := LastFor(events[..k], events[k].0);
    assert noEarlier.None? by {
      forall j | 0 <= j < k ensures events[..k][j].0 != events[k].0 {
        assert events[..k][j] == events[j];
      }
    }
    DiffTable(t, events[..k], events[k].0);
    assert Diff(t, p).1 == Diff(t, events[..k]).1 + [events[k]];
    DiffPrefix(t, events, k + 1);
    assert events[k] == Diff(t, p).1[|Diff(t, p).1| - 1];
  }

  /** An event that repeats the one before it is suppressed. */
  lemma RepeatSuppressed(t: PeerTable, events: seq<StateEvent>, k: nat)
    requires 0 < k < |events|
    requires events[k] == events[k - 1]
    ensures Diff(t, events[..k + 1]).1 == Diff(t, events[..k]).1
  {
    assert events[..k + 1][..k] == events[..k];
    assert events[..k][..k - 1] == events[..k - 1];
  }

  /** Draining an empty queue leaves the table alone and reports nothing. */
  lemma DiffEmpty(t: PeerTable)
    ensures Diff(t, []) == (t, [])
  {
  }

  /**
   * Worked example: [(A, Connected), (A, Connected), (B, Disconnected)] on an
   * empty table reports [(A, Connected), (B, Disconnected)].
   */
  lemma DiffExample(a: PeerId, b: PeerId)
    requires a != b
    ensures Diff(map[], [(a, Connected), (a, Connected), (b, Disconnected)]).1
         == [(a, Connected), (b, Disconnected)]
  {
    var events := [(a, Connected), (a, Connected), (b, Disconnected)];
    var one, two := [(a, Connected)], [(a, Connected), (a, Connected)];
    assert one[..0] == [];
    assert Diff(map[], one).0 == map[a := Connected];
    assert Diff(map[], one).1 == [(a, Connected)];
    assert two[..1] == one;
    assert Diff(map[], two).0 == map[a := Connected];
    assert Diff(map[], two).1 == [(a, Connected)];
    assert events[..2] == two;
  }
}
