/** Reference definitions of the two passes over all registered streams:
    `_wait_for_output` (poll-based) and `_wait_for_darwin_output`
    (select-based), on stream values.  Each returns whether the banner was
    found and the streams' states afterwards. */
module Passes {
  import opened Bytes
  import opened Chunk
  import opened Channel

  /** Work left on all streams. */
  function Total(cs: seq<Chan>): nat
  {
    if cs == [] then 0 else Measure(cs[0]) + Total(cs[1..])
  }

  lemma {:induction false} TotalUpdate(cs: seq<Chan>, i: nat, c: Chan)
    requires i < |cs|
    ensures Total(cs[i := c]) + Measure(cs[i]) == Total(cs) + Measure(c)
    decreases i
  {
    if i > 0 {
      assert cs[i := c][1..] == cs[1..][i - 1 := c];
      TotalUpdate(cs[1..], i - 1, c);
    } else {
      assert cs[i := c][1..] == cs[1..];
    }
  }

  /** Every stream has moved on from its state in `cs` (see `Later`). */
  predicate AllLater(cs: seq<Chan>, cs': seq<Chan>)
  {
    |cs'| == |cs| && forall j :: 0 <= j < |cs| ==> Later(cs[j], cs'[j])
  }

  lemma AllLaterTrans(cs: seq<Chan>, cs': seq<Chan>, cs'': seq<Chan>)
    requires AllLater(cs, cs') && AllLater(cs', cs'')
    ensures AllLater(cs, cs'')
  {
    forall j | 0 <= j < |cs| ensures Later(cs[j], cs''[j]) {
      assert Later(cs[j], cs'[j]) && Later(cs'[j], cs''[j]);
    }
  }

  lemma AllLaterUpdate(cs: seq<Chan>, i: nat, c: Chan)
    requires i < |cs| && Later(cs[i], c)
    ensures AllLater(cs, cs[i := c])
  {
  }

  /** Some stream consumed the banner (line) during the pass. */
  predicate SomeBannerTaken(cs: seq<Chan>, cs': seq<Chan>, banner: seq<bv8>)
    requires |cs'| == |cs|
  {
    exists j :: 0 <= j < |cs| && BannerTaken(|cs[j].taken|, cs'[j], banner)
  }

  /** Nothing can be read from any stream. */
  predicate AllIdle(cs: seq<Chan>)
  {
    forall j :: 0 <= j < |cs| ==> !Ready(cs[j])
  }

  datatype PassOut = PassOut(found: bool, after: seq<Chan>)

  // ---------------------------------------------------------------------
  // The poll-based pass

  datatype RoundOut = RoundOut(found: bool, anyReady: bool, after: seq<Chan>)

  /** One iteration of the outer loop of `_wait_for_output`, from stream `i` on:
      drain every stream while its poll reports it ready, return at the first
      found; `anyReady` accumulates whether any poll reported ready. */
  function Round(cs: seq<Chan>, i: nat, acc: bool, banner: seq<bv8>): (r: RoundOut)
    requires i <= |cs|
    decreases |cs| - i
    ensures |r.after| == |cs|
    ensures Total(r.after) <= Total(cs)
    ensures acc ==> r.anyReady
    // a round that some poll reported ready, and that did not find the banner,
    // consumed or received something
    ensures !r.found && r.anyReady ==> acc || Total(r.after) < Total(cs)
  {
    if i == |cs| then RoundOut(false, acc, cs)
    else
      var d := Drain(cs[i], banner);
      var cs' := cs[i := d.after];
      TotalUpdate(cs, i, d.after);
      if d.found then RoundOut(true, acc || d.ready, cs')
      else Round(cs', i + 1, acc || d.ready, banner)
  }

  /** A round only moves every stream on to a later state of itself. */
  lemma {:induction false} RoundLater(cs: seq<Chan>, i: nat, acc: bool, banner: seq<bv8>)
    requires i <= |cs|
    decreases |cs| - i
    ensures AllLater(cs, Round(cs, i, acc, banner).after)
  {
    if i < |cs| {
      var d := Drain(cs[i], banner);
      var cs' := cs[i := d.after];
      AllLaterUpdate(cs, i, d.after);
      if !d.found {
        RoundLater(cs', i + 1, acc || d.ready, banner);
        AllLaterTrans(cs, cs', Round(cs', i + 1, acc || d.ready, banner).after);
      }
    }
  }

  /** A round from `i` on leaves stream `j < i` alone. */
  lemma {:induction false} RoundKeeps(cs: seq<Chan>, i: nat, acc: bool, banner: seq<bv8>, j: nat)
    requires j < i <= |cs|
    decreases |cs| - i
    ensures Round(cs, i, acc, banner).after[j] == cs[j]
  {
    if i < |cs| {
      var d := Drain(cs[i], banner);
      var cs' := cs[i := d.after];
      if !d.found {
        RoundKeeps(cs', i + 1, acc || d.ready, banner, j);
      }
    }
  }

  /** A round in which no poll reported ready leaves every stream it checked idle. */
  lemma {:induction false} RoundIdle(cs: seq<Chan>, i: nat, acc: bool, banner: seq<bv8>)
    requires i <= |cs|
    decreases |cs| - i
    ensures var r := Round(cs, i, acc, banner);
      !r.found && !r.anyReady ==> forall j :: i <= j < |cs| ==> !Ready(r.after[j])
  {
    if i < |cs| {
      var d := Drain(cs[i], banner);
      var cs' := cs[i := d.after];
      if !d.found {
        RoundIdle(cs', i + 1, acc || d.ready, banner);
        RoundKeeps(cs', i + 1, acc || d.ready, banner, i);
      }
    }
  }

  /** A round that reports found consumed the banner from one of the streams
      it drained, and stopped there: no stream after that one was polled. */
  lemma {:induction false} RoundFound(cs: seq<Chan>, i: nat, acc: bool, banner: seq<bv8>)
    requires i <= |cs|
    decreases |cs| - i
    ensures var r := Round(cs, i, acc, banner);
      r.found ==> exists j :: i <= j < |cs| && BannerTaken(|cs[j].taken|, r.after[j], banner)
                          && forall l :: j < l < |cs| ==> r.after[l] == cs[l]
  {
    if i < |cs| {
      var d := Drain(cs[i], banner);
      var cs' := cs[i := d.after];
      if d.found {
        assert BannerTaken(|cs[i].taken|, cs'[i], banner);
      } else {
        RoundFound(cs', i + 1, acc || d.ready, banner);
      }
    }
  }

  /** `_wait_for_output`: repeat rounds while some poll reported ready. */
  function PollPass(cs: seq<Chan>, banner: seq<bv8>): (r: PassOut)
    decreases Total(cs)
    ensures |r.after| == |cs|
  {
    var r := Round(cs, 0, false, banner);
    if r.found then PassOut(true, r.after)
    else if !r.anyReady then PassOut(false, r.after)
    else PollPass(r.after, banner)
  }

  /** The poll pass only consumes: every stream keeps its output, and what was
      consumed stays consumed. */
  lemma {:induction false} PollPassLater(cs: seq<Chan>, banner: seq<bv8>)
    decreases Total(cs)
    ensures AllLater(cs, PollPass(cs, banner).after)
  {
    var r := Round(cs, 0, false, banner);
    RoundLater(cs, 0, false, banner);
    if !r.found && r.anyReady {
      PollPassLater(r.after, banner);
      AllLaterTrans(cs, r.after, PollPass(r.after, banner).after);
    }
  }

  /** The poll pass returns False only after a round in which no poll reported
      ready, so every stream has been drained of all it could deliver. */
  lemma {:induction false} PollPassIdle(cs: seq<Chan>, banner: seq<bv8>)
    decreases Total(cs)
    ensures !PollPass(cs, banner).found ==> AllIdle(PollPass(cs, banner).after)
  {
    var r := Round(cs, 0, false, banner);
    RoundIdle(cs, 0, false, banner);
    if !r.found && r.anyReady {
      PollPassIdle(r.after, banner);
    }
  }

  /** The poll pass returns True only when a step consumed the banner from one
      of the streams, up to the end of its line on a raw stream. */
  lemma {:induction false} PollPassFound(cs: seq<Chan>, banner: seq<bv8>)
    decreases Total(cs)
    ensures PollPass(cs, banner).found ==> SomeBannerTaken(cs, PollPass(cs, banner).after, banner)
  {
    var r := Round(cs, 0, false, banner);
    RoundFound(cs, 0, false, banner);
    if !r.found && r.anyReady {
      PollPassFound(r.after, banner);
      var p := PollPass(r.after, banner);
      if p.found {
        var j :| 0 <= j < |r.after| && BannerTaken(|r.after[j].taken|, p.after[j], banner);
        RoundLater(cs, 0, false, banner);
        assert Later(cs[j], r.after[j]);
        BannerTakenEarlier(|cs[j].taken|, |r.after[j].taken|, p.after[j], banner);
      }
    }
  }

  // ---------------------------------------------------------------------
  // The select-based pass

  /** The zero-timeout `select` over all streams checks each of them. */
  function DeliverAll(cs: seq<Chan>): (r: seq<Chan>)
    ensures |r| == |cs| && forall j :: 0 <= j < |cs| ==> r[j] == Deliver(cs[j])
  {
    if cs == [] then [] else [Deliver(cs[0])] + DeliverAll(cs[1..])
  }

  lemma {:induction false} DeliverAllTotal(cs: seq<Chan>)
    ensures Total(DeliverAll(cs)) <= Total(cs)
    ensures AllLater(cs, DeliverAll(cs))
    ensures forall j :: 0 <= j < |cs| ==> DeliverAll(cs)[j].taken == cs[j].taken
  {
    if cs != [] {
      DeliverAllTotal(cs[1..]);
      assert DeliverAll(cs)[1..] == DeliverAll(cs[1..]);
    }
  }

  /** The list `select` returns: the indices below `n` of the ready streams, in order. */
  function ReadyBelow(cs: seq<Chan>, n: nat): (rl: seq<nat>)
    requires n <= |cs|
    ensures forall k :: 0 <= k < |rl| ==> rl[k] < n && Ready(cs[rl[k]])
    ensures forall j :: 0 <= j < n && Ready(cs[j]) ==> j in rl
    ensures forall k, l :: 0 <= k < l < |rl| ==> rl[k] < rl[l]
  {
    if n == 0 then []
    else if Ready(cs[n - 1]) then ReadyBelow(cs, n - 1) + [n - 1]
    else ReadyBelow(cs, n - 1)
  }

  /** The streams `select` listed, as indices into `cs`. */
  predicate Listed(cs: seq<Chan>, rl: seq<nat>)
  {
    forall k :: 0 <= k < |rl| ==> rl[k] < |cs|
  }

  /** `for output in rlist`, from the `k`-th listed stream on: drain it while a
      single-stream `select` reports it ready; return at the first found. */
  function DrainEach(cs: seq<Chan>, rl: seq<nat>, k: nat, banner: seq<bv8>): (r: PassOut)
    requires k <= |rl| && Listed(cs, rl)
    decreases |rl| - k
    ensures |r.after| == |cs|
    ensures Total(r.after) <= Total(cs)
    ensures k < |rl| && Ready(cs[rl[k]]) && !r.found ==> Total(r.after) < Total(cs)
  {
    if k == |rl| then PassOut(false, cs)
    else
      var i := rl[k];
      var d := Drain(cs[i], banner);
      var cs' := cs[i := d.after];
      TotalUpdate(cs, i, d.after);
      if d.found then PassOut(true, cs')
      else DrainEach(cs', rl, k + 1, banner)
  }

  lemma {:induction false} DrainEachLater(cs: seq<Chan>, rl: seq<nat>, k: nat, banner: seq<bv8>)
    requires k <= |rl| && Listed(cs, rl)
    decreases |rl| - k
    ensures AllLater(cs, DrainEach(cs, rl, k, banner).after)
  {
    if k < |rl| {
      var i := rl[k];
      var d := Drain(cs[i], banner);
      var cs' := cs[i := d.after];
      AllLaterUpdate(cs, i, d.after);
      if !d.found {
        DrainEachLater(cs', rl, k + 1, banner);
        AllLaterTrans(cs, cs', DrainEach(cs', rl, k + 1, banner).after);
      }
    }
  }

  /** Every stream whose index is not in `touched` keeps its state. */
  predicate KeptOutside(cs: seq<Chan>, cs': seq<Chan>, touched: set<nat>)
  {
    |cs'| == |cs| && forall j :: 0 <= j < |cs| && j !in touched ==> cs'[j] == cs[j]
  }

  lemma KeptOutsideUpdate(cs: seq<Chan>, i: nat, c: Chan)
    requires i < |cs|
    ensures KeptOutside(cs, cs[i := c], {i})
  {
  }

  lemma KeptOutsideTrans(cs: seq<Chan>, cs': seq<Chan>, cs'': seq<Chan>, t: set<nat>, t': set<nat>)
    requires KeptOutside(cs, cs', t) && KeptOutside(cs', cs'', t')
    ensures KeptOutside(cs, cs'', t + t')
  {
  }

  /** The indices listed in `rl` from position `lo` up to, not including, `hi`. */
  function Span(rl: seq<nat>, lo: nat, hi: nat): (s: set<nat>)
    requires hi <= |rl|
    decreases hi - lo
    ensures forall m :: lo <= m < hi ==> rl[m] in s
    ensures forall j :: j in s ==> exists m :: lo <= m < hi && rl[m] == j
  {
    if lo >= hi then {} else {rl[lo]} + Span(rl, lo + 1, hi)
  }

  /** A `for output in rlist` loop that reports found returned at the `k'`-th
      listed stream, whose drain found the banner: every stream not listed
      among the `k`-th to the `k'`-th keeps its state. */
  lemma {:induction false} DrainEachStops(cs: seq<Chan>, rl: seq<nat>, k: nat, banner: seq<bv8>) returns (k': nat)
    requires k <= |rl| && Listed(cs, rl)
    decreases |rl| - k
    ensures var r := DrainEach(cs, rl, k, banner);
      r.found ==> k <= k' < |rl| && BannerTaken(|cs[rl[k']].taken|, r.after[rl[k']], banner)
                  && KeptOutside(cs, r.after, Span(rl, k, k' + 1))
  {
    k' := k;
    if k < |rl| {
      var i := rl[k];
      var d := Drain(cs[i], banner);
      var cs' := cs[i := d.after];
      KeptOutsideUpdate(cs, i, d.after);
      if !d.found {
        k' := DrainEachStops(cs', rl, k + 1, banner);
        var r := DrainEach(cs', rl, k + 1, banner);
        if r.found {
          var f := rl[k'];
          AllLaterUpdate(cs, i, d.after);
          BannerTakenEarlier(|cs[f].taken|, |cs'[f].taken|, r.after[f], banner);
          KeptOutsideTrans(cs, cs', r.after, {i}, Span(rl, k + 1, k' + 1));
        }
      }
    }
  }

  /** `_wait_for_darwin_output` on the non-None handles: repeat (select all,
      drain each listed stream) until a select lists none. */
  function DarwinPass(cs: seq<Chan>, banner: seq<bv8>): (r: PassOut)
    decreases Total(cs)
    ensures |r.after| == |cs|
  {
    var after := DeliverAll(cs);
    var rl := ReadyBelow(after, |after|);
    DeliverAllTotal(cs);
    if rl == [] then PassOut(false, after)
    else
      var e := DrainEach(after, rl, 0, banner);
      if e.found then e else DarwinPass(e.after, banner)
  }

  lemma {:induction false} DarwinPassLater(cs: seq<Chan>, banner: seq<bv8>)
    decreases Total(cs)
    ensures AllLater(cs, DarwinPass(cs, banner).after)
  {
    var after := DeliverAll(cs);
    var rl := ReadyBelow(after, |after|);
    DeliverAllTotal(cs);
    if rl != [] {
      DrainEachLater(after, rl, 0, banner);
      var e := DrainEach(after, rl, 0, banner);
      AllLaterTrans(cs, after, e.after);
      if !e.found {
        DarwinPassLater(e.after, banner);
        AllLaterTrans(cs, e.after, DarwinPass(e.after, banner).after);
      }
    }
  }

  /** The select pass returns False only after a select that listed no stream,
      so every stream has been drained of all it could deliver. */
  lemma {:induction false} DarwinPassIdle(cs: seq<Chan>, banner: seq<bv8>)
    decreases Total(cs)
    ensures !DarwinPass(cs, banner).found ==> AllIdle(DarwinPass(cs, banner).after)
  {
    var after := DeliverAll(cs);
    var rl := ReadyBelow(after, |after|);
    DeliverAllTotal(cs);
    if rl != [] {
      var e := DrainEach(after, rl, 0, banner);
      if !e.found {
        DarwinPassIdle(e.after, banner);
      }
    }
  }

  /** The select pass returns True only when a step consumed the banner from
      one of the streams, up to the end of its line on a raw stream. */
  lemma {:induction false} DarwinPassFound(cs: seq<Chan>, banner: seq<bv8>)
    decreases Total(cs)
    ensures DarwinPass(cs, banner).found ==> SomeBannerTaken(cs, DarwinPass(cs, banner).after, banner)
  {
    var after := DeliverAll(cs);
    var rl := ReadyBelow(after, |after|);
    DeliverAllTotal(cs);
    if rl != [] {
      var e := DrainEach(after, rl, 0, banner);
      var k' := DrainEachStops(after, rl, 0, banner);
      DrainEachLater(after, rl, 0, banner);
      if e.found {
        var j := rl[k'];
        assert after[j].taken == cs[j].taken;
      } else {
        DarwinPassFound(e.after, banner);
        var p := DarwinPass(e.after, banner);
        if p.found {
          var j :| 0 <= j < |e.after| && BannerTaken(|e.after[j].taken|, p.after[j], banner);
          AllLaterTrans(cs, after, e.after);
          assert Later(cs[j], e.after[j]);
          BannerTakenEarlier(|cs[j].taken|, |e.after[j].taken|, p.after[j], banner);
        }
      }
    }
  }

  /** With a single registered stream, a round is one drain of it. */
  lemma PollPassSingle(c: Chan, banner: seq<bv8>)
    ensures var d := Drain(c, banner);
      PollPass([c], banner) ==
        if d.found then PassOut(true, [d.after])
        else if !d.ready then PassOut(false, [d.after])
        else PollPass([d.after], banner)
  {
    var d := Drain(c, banner);
    assert [c][0 := d.after] == [d.after];
    assert Round([c], 0, false, banner) == if d.found then RoundOut(true, d.ready, [d.after])
      else Round([d.after], 1, d.ready, banner);
  }

  /** When the drain of the first registered stream finds the banner, the
      poll pass returns True at once, having touched no other stream. */
  lemma PollPassFirstFound(cs: seq<Chan>, banner: seq<bv8>)
    requires cs != [] && Drain(cs[0], banner).found
    ensures PollPass(cs, banner) == PassOut(true, cs[0 := Drain(cs[0], banner).after])
  {
    var d := Drain(cs[0], banner);
    assert Round(cs, 0, false, banner) == RoundOut(true, d.ready, cs[0 := d.after]);
  }

  // ---------------------------------------------------------------------
  // Streams with nothing left to deliver

  /** Nothing readable now and nothing more to come: a stream whose writer
      has finished and whose output was consumed. */
  predicate Exhausted(c: Chan)
  {
    c.pending == [] && c.incoming == []
  }

  lemma {:induction false} RoundExhausted(cs: seq<Chan>, i: nat, acc: bool, banner: seq<bv8>)
    requires i <= |cs| && forall j :: 0 <= j < |cs| ==> Exhausted(cs[j])
    decreases |cs| - i
    ensures Round(cs, i, acc, banner) == RoundOut(false, acc, cs)
  {
    if i < |cs| {
      assert Drain(cs[i], banner) == DrainOut(false, false, cs[i]);
      assert cs[i := cs[i]] == cs;
      RoundExhausted(cs, i + 1, acc, banner);
    }
  }

  /** On exhausted streams the poll pass returns False after one round and
      changes nothing. */
  lemma PollPassExhausted(cs: seq<Chan>, banner: seq<bv8>)
    requires forall j :: 0 <= j < |cs| ==> Exhausted(cs[j])
    ensures PollPass(cs, banner) == PassOut(false, cs)
  {
    RoundExhausted(cs, 0, false, banner);
  }

  /** On exhausted streams the select pass returns False after one select
      and changes nothing. */
  lemma DarwinPassExhausted(cs: seq<Chan>, banner: seq<bv8>)
    requires forall j :: 0 <= j < |cs| ==> Exhausted(cs[j])
    ensures DarwinPass(cs, banner) == PassOut(false, cs)
  {
    assert DeliverAll(cs) == cs;
  }
}
