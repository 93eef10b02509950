/** An output handle of the child process as a mutable object, with the
    operations the executor performs on it: the zero-timeout readiness
    check, `peek`, `read` and `readline`. */
module Streams {
  import opened Bytes
  import opened Chunk
  import opened Channel
  import opened Passes

  class Stream {
    /** The handle has a raw `buffer` (`getattr(output, "buffer")` is not None). */
    const peekable: bool
    /** Bytes consumed from the handle so far. */
    ghost var taken: seq<bv8>
    /** Bytes readable now without blocking. */
    var pending: seq<bv8>
    /** Chunks the child writes later; the next one arrives at each readiness check. */
    var incoming: seq<seq<bv8>>

    ghost function State(): Chan
      reads this
    {
      Chan(peekable, taken, pending, incoming)
    }

    /** `poll(0)` / `select([output], [], [], 0)`: is the handle readable now? */
    method Poll() returns (ready: bool)
      modifies this
      ensures State() == Deliver(old(State()))
      ensures ready == Ready(State())
    {
      if incoming != [] {
        pending := pending + incoming[0];
        incoming := incoming[1..];
      }
      ready := pending != [];
    }

    /** `raw.peek(n)`: the available bytes, at most `n`, nothing consumed. */
    method Peek(n: nat) returns (preview: seq<bv8>)
      ensures preview == pending[..Min(n, |pending|)]
    {
      preview := pending[..Min(n, |pending|)];
    }

    /** `raw.read(n)`: consume at most `n` available bytes. */
    method Read(n: nat) returns (data: seq<bv8>)
      modifies this
      ensures data == old(pending)[..Min(n, |old(pending)|)]
      ensures State() == Consume(old(State()), |data|)
    {
      data := pending[..Min(n, |pending|)];
      taken := taken + data;
      pending := pending[|data|..];
    }

    /** `output.readline()` on a text wrapper: consume one line. */
    method ReadLine() returns (line: seq<bv8>)
      modifies this
      ensures line == LineOf(old(pending))
      ensures State() == Consume(old(State()), |line|)
    {
      line := LineOf(pending);
      taken := taken + line;
      pending := pending[|line|..];
    }
  }

  /** The states of a list of handles. */
  ghost function States(ss: seq<Stream>): (cs: seq<Chan>)
    reads ss
    ensures |cs| == |ss| && forall j :: 0 <= j < |ss| ==> cs[j] == ss[j].State()
  {
    if ss == [] then [] else [ss[0].State()] + States(ss[1..])
  }

  lemma StatesAre(ss: seq<Stream>, cs: seq<Chan>)
    requires |cs| == |ss| && forall j :: 0 <= j < |ss| ==> ss[j].State() == cs[j]
    ensures States(ss) == cs
  {
  }

  /** No handle appears twice. */
  predicate Distinct(ss: seq<Stream>)
  {
    forall j, k :: 0 <= j < k < |ss| ==> ss[j] != ss[k]
  }

  /** The positions below `n` of the handles of `fds` that are present (not
      None), in increasing order. */
  function Present(fds: seq<Stream?>, n: nat): (idx: seq<nat>)
    requires n <= |fds|
    ensures forall k :: 0 <= k < |idx| ==> idx[k] < n && fds[idx[k]] != null
    ensures forall j :: 0 <= j < n && fds[j] != null ==> j in idx
    ensures forall k, l :: 0 <= k < l < |idx| ==> idx[k] < idx[l]
  {
    if n == 0 then []
    else if fds[n - 1] != null then Present(fds, n - 1) + [n - 1]
    else Present(fds, n - 1)
  }

  /** `Present` below `n` only looks at the first `n` handles. */
  lemma {:induction false} PresentPrefix(fds: seq<Stream?>, m: nat, n: nat)
    requires n <= m <= |fds|
    decreases n
    ensures Present(fds[..m], n) == Present(fds, n)
  {
    if n > 0 {
      PresentPrefix(fds, m, n - 1);
    }
  }

  /** The handles of `fds` that are not None (see `NonNullInOrder`). */
  function NonNull(fds: seq<Stream?>): (valid: seq<Stream>)
    decreases |fds|
    ensures |valid| <= |fds|
  {
    if fds == [] then []
    else
      var last := fds[|fds| - 1];
      if last == null then NonNull(fds[..|fds| - 1]) else NonNull(fds[..|fds| - 1]) + [last]
  }

  /** The non-None handles keep their order: `NonNull` holds, in turn, the
      handle at each present position of `fds`, and nothing else. */
  lemma {:induction false} NonNullInOrder(fds: seq<Stream?>)
    decreases |fds|
    ensures |NonNull(fds)| == |Present(fds, |fds|)|
    ensures forall k :: 0 <= k < |NonNull(fds)| ==> NonNull(fds)[k] as Stream? == fds[Present(fds, |fds|)[k]]
  {
    if fds != [] {
      var n := |fds| - 1;
      var init := fds[..n];
      NonNullInOrder(init);
      PresentPrefix(fds, n, n);
      var p, q := Present(fds, n), Present(fds, n + 1);
      var v, w := NonNull(init), NonNull(fds);
      forall k | 0 <= k < |w|
        ensures w[k] as Stream? == fds[q[k]]
      {
        if k < |v| {
          assert w[k] == v[k] && q[k] == p[k] && init[p[k]] == fds[p[k]];
        } else {
          assert w[k] == fds[n] && q[k] == n;
        }
      }
    }
  }

  /** `rlist` lists the handles of `fds` at the positions `idx`. */
  predicate Picks(rlist: seq<Stream>, fds: seq<Stream>, idx: seq<nat>)
  {
    |rlist| == |idx| && forall k :: 0 <= k < |idx| ==> idx[k] < |fds| && rlist[k] == fds[idx[k]]
  }

  lemma PicksSnoc(rlist: seq<Stream>, fds: seq<Stream>, idx: seq<nat>, j: nat)
    requires Picks(rlist, fds, idx) && j < |fds|
    ensures Picks(rlist + [fds[j]], fds, idx + [j])
  {
  }

  /** The readiness check of `fds[j]`; being distinct, the other handles are untouched. */
  method PollAt(fds: seq<Stream>, j: nat) returns (ready: bool)
    requires Distinct(fds) && j < |fds|
    modifies fds[j]
    ensures fds[j].State() == Deliver(old(fds[j].State()))
    ensures ready == Ready(fds[j].State())
    ensures forall l :: 0 <= l < |fds| && l != j ==> fds[l].State() == old(fds[l].State())
  {
    ready := fds[j].Poll();
    forall l | 0 <= l < |fds| && l != j
      ensures fds[l].State() == old(fds[l].State())
    {
      assert fds[l] != fds[j];
    }
  }

  /** `select.select(fds, [], [], 0)`: check every handle and list the ready
      ones in order; `idx` gives their positions in `fds`. */
  method Select(fds: seq<Stream>) returns (rlist: seq<Stream>, ghost idx: seq<nat>)
    requires Distinct(fds)
    modifies fds
    ensures States(fds) == DeliverAll(old(States(fds)))
    ensures idx == ReadyBelow(States(fds), |fds|)
    ensures Picks(rlist, fds, idx)
  {
    ghost var c0 := States(fds);
    ghost var d := DeliverAll(c0);
    rlist := [];
    var j := 0;
    while j < |fds|
      invariant j <= |fds|
      invariant Checked(fds, j, c0, d)
      invariant Picks(rlist, fds, ReadyBelow(d, j))
    {
      rlist := SelectNext(fds, j, rlist, c0, d);
      j := j + 1;
    }
    idx := ReadyBelow(d, |fds|);
    CheckedAll(fds, c0, d);
  }

  lemma CheckedAll(fds: seq<Stream>, c0: seq<Chan>, d: seq<Chan>)
    requires Checked(fds, |fds|, c0, d)
    ensures States(fds) == d
  {
    StatesAre(fds, d);
  }

  /** The handles before `j` have been checked (state `d`), the others not yet (state `c0`). */
  ghost predicate Checked(fds: seq<Stream>, j: nat, c0: seq<Chan>, d: seq<Chan>)
    reads fds
  {
    |c0| == |fds| && |d| == |fds|
    && (forall l :: 0 <= l < j && l < |fds| ==> fds[l].State() == d[l])
    && (forall l :: j <= l < |fds| ==> fds[l].State() == c0[l])
  }

  /** One handle of `select`: check `fds[j]` and list it when it is ready. */
  method SelectNext(fds: seq<Stream>, j: nat, rlist: seq<Stream>, ghost c0: seq<Chan>, ghost d: seq<Chan>)
    returns (rlist': seq<Stream>)
    requires Distinct(fds) && j < |fds| && Checked(fds, j, c0, d)
    requires d[j] == Deliver(c0[j])
    requires Picks(rlist, fds, ReadyBelow(d, j))
    modifies fds[j]
    ensures Checked(fds, j + 1, c0, d)
    ensures Picks(rlist', fds, ReadyBelow(d, j + 1))
  {
    var ready := PollAt(fds, j);
    rlist' := rlist;
    if ready {
      PicksSnoc(rlist, fds, ReadyBelow(d, j), j);
      rlist' := rlist + [fds[j]];
    }
  }
}
