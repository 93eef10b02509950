/** The poll pass as written, with readiness as `poll` reports it on a pipe:
    once the child has closed its end, the descriptor is reported ready
    (POLLHUP) although no byte can be read.  The step then sees an empty
    peek and says (False, True), the round still counts the stream as
    ready, and the `while any_ready` loop repeats the same round forever. */
module Hangup {
  import opened Bytes
  import opened Chunk
  import opened Channel
  import opened Passes

  /** `p.poll(0)` on a pipe: bytes to read, or the writer has hung up. */
  predicate HupReady(c: Chan, closed: bool)
  {
    Ready(c) || closed
  }

  /** The inner `while p.poll(0)` loop with hang-up readiness. */
  function HupDrain(c: Chan, banner: seq<bv8>, closed: bool): (r: DrainOut)
    decreases Measure(c), 1
    ensures Later(c, r.after)
    ensures Measure(r.after) <= Measure(c)
  {
    var d := Deliver(c);
    if !HupReady(d, closed) then DrainOut(false, false, d) else HupDrained(d, banner, closed)
  }

  /** The inner loop with hang-up readiness, entered after the check reported `c` ready. */
  function HupDrained(c: Chan, banner: seq<bv8>, closed: bool): (r: DrainOut)
    decreases Measure(c), 0
    ensures Later(c, r.after)
    ensures Measure(r.after) <= Measure(c)
  {
    var s := Step(c, banner);
    if s.found || s.shouldBreak then DrainOut(true, s.found, s.after)
    else
      var r := HupDrain(s.after, banner, closed);
      DrainOut(true, r.found, r.after)
  }

  /** One iteration of the `while any_ready` loop with hang-up readiness;
      `closed[j]` says whether the writer of stream `j` has closed it. */
  function HupRound(cs: seq<Chan>, closed: seq<bool>, i: nat, acc: bool, banner: seq<bv8>): (r: RoundOut)
    requires i <= |cs| && |closed| == |cs|
    decreases |cs| - i
    ensures AllLater(cs, r.after)
  {
    if i == |cs| then RoundOut(false, acc, cs)
    else
      var d := HupDrain(cs[i], banner, closed[i]);
      var cs' := cs[i := d.after];
      AllLaterUpdate(cs, i, d.after);
      if d.found then RoundOut(true, acc || d.ready, cs')
      else
        var r := HupRound(cs', closed, i + 1, acc || d.ready, banner);
        AllLaterTrans(cs, cs', r.after);
        r
  }

  /** On exhausted streams a round changes nothing, and reports ready exactly
      when some stream from `i` on has been closed by its writer. */
  lemma {:induction false} HupRoundExhausted(cs: seq<Chan>, closed: seq<bool>, i: nat, acc: bool, banner: seq<bv8>)
    requires i <= |cs| && |closed| == |cs| && forall j :: 0 <= j < |cs| ==> Exhausted(cs[j])
    decreases |cs| - i
    ensures HupRound(cs, closed, i, acc, banner)
      == RoundOut(false, acc || exists j :: i <= j < |cs| && closed[j], cs)
  {
    if i < |cs| {
      var c := cs[i];
      assert Deliver(c) == c;
      assert Step(c, banner) == StepOut(false, true, c);
      assert HupDrain(c, banner, closed[i]) == DrainOut(closed[i], false, c);
      assert cs[i := c] == cs;
      HupRoundExhausted(cs, closed, i + 1, acc || closed[i], banner);
      assert (acc || closed[i] || exists j :: i + 1 <= j < |cs| && closed[j])
        == (acc || exists j :: i <= j < |cs| && closed[j]);
    }
  }

  /** The hang: when every stream is exhausted and one of them has been
      closed, a round reports `any_ready` and leaves every stream as it was,
      so the next round starts from the same state and the loop never
      exits. */
  lemma ClosedStreamSpins(cs: seq<Chan>, closed: seq<bool>, banner: seq<bv8>)
    requires |closed| == |cs| && forall j :: 0 <= j < |cs| ==> Exhausted(cs[j])
    requires exists j :: 0 <= j < |cs| && closed[j]
    ensures HupRound(cs, closed, 0, false, banner) == RoundOut(false, true, cs)
  {
    HupRoundExhausted(cs, closed, 0, false, banner);
  }
}
