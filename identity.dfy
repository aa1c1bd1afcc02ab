/**
 * The write-once identity latch. The message process hands the local peer id
 * over a single-slot link; the socket's id() latches the first value it reads.
 */
module Identity {
  import opened Wrappers
  import opened Peers

  /** What one id() call answers and leaves behind in the latch and the handoff slot. */
  datatype Poll = Poll(answer: Option<PeerId>, latch: Option<PeerId>, slot: Option<PeerId>)

  /**
   * One id() call: a set latch answers by itself; otherwise the slot is
   * checked once without blocking, and a value found there is committed.
   */
  function PollId(latch: Option<PeerId>, slot: Option<PeerId>): (p: Poll)
    ensures p.answer.None? <==> latch.None? && slot.None?
    ensures latch.Some? ==> p == Poll(latch, latch, slot)
    ensures latch.None? ==> p.answer == slot && p.slot == None
    ensures p.latch == p.answer
  {
    if latch.Some? then Poll(latch, latch, slot)
    else if slot.Some? then Poll(slot, slot, None)
    else Poll(None, None, None)
  }

  /** The message process offering an id on the capacity-one link: a full slot keeps its value. */
  function Offer(slot: Option<PeerId>, sent: Option<PeerId>): (r: Option<PeerId>)
    ensures slot.Some? ==> r == slot
    ensures slot.None? ==> r == sent
  {
    if slot.None? then sent else slot
  }

  /**
   * The answers of successive id() calls, where before call k the message
   * process offers arrivals[k] (None: it sends nothing).
   */
  function PollSeries(latch: Option<PeerId>, slot: Option<PeerId>, arrivals: seq<Option<PeerId>>)
    : (answers: seq<Option<PeerId>>)
    ensures |answers| == |arrivals|
    decreases |arrivals|
  {
    if arrivals == [] then []
    else
      var p := PollId(latch, Offer(slot, arrivals[0]));
      [p.answer] + PollSeries(p.latch, p.slot, arrivals[1..])
  }

  /** Once the latch is set, every call answers the latched value, whatever arrives later. */
  lemma {:induction false} LatchedAnswers(latch: Option<PeerId>, slot: Option<PeerId>, arrivals: seq<Option<PeerId>>)
    requires latch.Some?
    ensures forall k :: 0 <= k < |arrivals| ==> PollSeries(latch, slot, arrivals)[k] == latch
    decreases |arrivals|
  {
    if arrivals != [] {
      var p := PollId(latch, Offer(slot, arrivals[0]));
      LatchedAnswers(p.latch, p.slot, arrivals[1..]);
    }
  }

  /** Write once, read idempotent: after the first answer with an id, all later answers are the same id. */
  lemma {:induction false} AnswerIsStable(latch: Option<PeerId>, slot: Option<PeerId>, arrivals: seq<Option<PeerId>>, i: nat, j: nat)
    requires i <= j < |arrivals|
    requires PollSeries(latch, slot, arrivals)[i].Some?
    ensures PollSeries(latch, slot, arrivals)[j] == PollSeries(latch, slot, arrivals)[i]
    decreases i
  {
    var p := PollId(latch, Offer(slot, arrivals[0]));
    if i == 0 {
      if j > 0 {
        LatchedAnswers(p.latch, p.slot, arrivals[1..]);
      }
    } else {
      AnswerIsStable(p.latch, p.slot, arrivals[1..], i - 1, j - 1);
    }
  }

  /**
   * Starting empty, id() answers None until the first id is sent, and then
   * answers exactly that first id.
   */
  lemma {:induction false} FirstArrivalCommitted(arrivals: seq<Option<PeerId>>, k: nat)
    requires k < |arrivals| && arrivals[k].Some?
    requires forall j :: 0 <= j < k ==> arrivals[j].None?
    ensures forall j :: 0 <= j < k ==> PollSeries(None, None, arrivals)[j].None?
    ensures PollSeries(None, None, arrivals)[k] == arrivals[k]
    decreases k
  {
    if k > 0 {
      var rest := arrivals[1..];
      FirstArrivalCommitted(rest, k - 1);
      assert PollSeries(None, None, arrivals) == [None] + PollSeries(None, None, rest);
    }
  }
}
