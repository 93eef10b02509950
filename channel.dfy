/** One output stream as a value, and the reference definitions of one drain
    step (`_consume_until_banner_or_block`) and of the inner draining loop that
    both passes run on a ready stream. */
module Channel {
  import opened Bytes
  import opened Chunk

  /** A stream of the child process.
      `peekable`: the handle has a raw `buffer` that supports `peek`;
      `taken`: every byte consumed from it so far;
      `pending`: the bytes that can be read now without blocking;
      `incoming`: the chunks the child writes later, one of which arrives
      at each readiness check. */
  datatype Chan = Chan(peekable: bool, taken: seq<bv8>, pending: seq<bv8>, incoming: seq<seq<bv8>>)

  /** Everything the child has written or will write on this stream. */
  function Content(c: Chan): seq<bv8>
  {
    c.taken + c.pending + Flatten(c.incoming)
  }

  /** Work left on a stream: unread bytes plus chunks still to arrive. */
  function Measure(c: Chan): nat
  {
    |c.pending| + |Flatten(c.incoming)| + |c.incoming|
  }

  /** `c'` is a later state of `c`: same handle kind, same output, and what was
      consumed stays consumed. */
  predicate Later(c: Chan, c': Chan)
  {
    c'.peekable == c.peekable && Content(c') == Content(c) && c.taken <= c'.taken
  }

  /** The zero-timeout readiness check (`poll(0)` / `select(..., 0)`) first lets
      the next chunk of the child's output arrive. */
  function Deliver(c: Chan): (d: Chan)
    ensures Later(c, d) && d.taken == c.taken
    ensures c.pending <= d.pending
    ensures Measure(d) <= Measure(c)
  {
    if c.incoming == [] then c
    else
      assert Flatten(c.incoming) == c.incoming[0] + Flatten(c.incoming[1..]);
      assert c.taken + c.pending + Flatten(c.incoming)
        == c.taken + (c.pending + c.incoming[0]) + Flatten(c.incoming[1..]);
      c.(pending := c.pending + c.incoming[0], incoming := c.incoming[1..])
  }

  /** A stream is ready when bytes can be read from it: readiness is checked by
      the bytes available, as `POLLIN` reports it for the pipe.  Bytes that a
      text wrapper has already pulled into its own buffer are not modelled
      apart from the pipe's. */
  predicate Ready(c: Chan)
  {
    c.pending != []
  }

  /** The banner was consumed from `c'` at or after offset `from` of its
      consumed bytes, and on a raw stream the consumption stopped at the first
      newline after the match. */
  predicate BannerTaken(from: nat, c': Chan, banner: seq<bv8>)
  {
    exists m :: from <= m <= |c'.taken| && MatchAt(c'.taken, banner, m)
      && (c'.peekable ==> LineEndsAfter(c'.taken, m + |banner|))
  }

  lemma BannerTakenEarlier(a: nat, b: nat, c': Chan, banner: seq<bv8>)
    requires a <= b && BannerTaken(b, c', banner)
    ensures BannerTaken(a, c', banner)
  {
  }

  /** `t` ends with a newline at or after offset `e`, and that is the first newline from `e`. */
  predicate LineEndsAfter(t: seq<bv8>, e: int)
  {
    0 <= e < |t| && t[|t| - 1] == NL && forall j :: e <= j < |t| - 1 ==> t[j] != NL
  }

  /** A consuming read of `n` available bytes (`read(n)` or `readline()`):
      they move from `pending` to `taken`. */
  function Consume(c: Chan, n: nat): (c': Chan)
    requires n <= |c.pending|
    ensures Later(c, c') && c'.incoming == c.incoming
    ensures c'.taken == c.taken + c.pending[..n] && c'.pending == c.pending[n..]
    ensures Measure(c') + n == Measure(c)
  {
    assert c.pending == c.pending[..n] + c.pending[n..];
    c.(taken := c.taken + c.pending[..n], pending := c.pending[n..])
  }

  datatype StepOut = StepOut(found: bool, shouldBreak: bool, after: Chan)

  /** One call of `_consume_until_banner_or_block` on a stream: on a text
      wrapper without a raw buffer, one `readline`; otherwise one `peek` of at
      most 64 KiB, the decision, and one consuming `read`. */
  function Step(c: Chan, banner: seq<bv8>): (r: StepOut)
    ensures Later(c, r.after) && r.after.incoming == c.incoming
    // the bytes consumed are a prefix of what was available
    ensures r.after.taken == c.taken + c.pending[..|c.pending| - |r.after.pending|]
    ensures Measure(r.after) + |c.pending| - |r.after.pending| == Measure(c)
    // a raw stream never consumes more than one preview
    ensures c.peekable ==> |c.pending| - |r.after.pending| <= PeekSize
    // nothing available: stop, consume nothing
    ensures c.pending == [] ==> r == StepOut(false, true, c)
    // something available: either the banner is found or at least one byte is
    // consumed and the caller keeps draining
    ensures c.pending != [] && !r.found ==> !r.shouldBreak && |r.after.pending| < |c.pending|
    ensures r.found ==> r.shouldBreak && BannerTaken(|c.taken|, r.after, banner)
  {
    if c.peekable then PeekStep(c, banner) else LineStep(c, banner)
  }

  /** The text-wrapper fallback: one `readline`, matched at the start of the line. */
  function LineStep(c: Chan, banner: seq<bv8>): (r: StepOut)
    ensures r.after == Consume(c, |LineOf(c.pending)|)
    ensures c.pending == [] ==> r == StepOut(false, true, c)
    ensures c.pending != [] && !r.found ==> !r.shouldBreak && |r.after.pending| < |c.pending|
    ensures r.found ==> r.shouldBreak && MatchAt(r.after.taken, banner, |c.taken|)
  {
    var line := LineOf(c.pending);
    var d := DecideLine(line, banner);
    var c' := Consume(c, |line|);
    assert c.pending[..|line|] == line;
    if d.found then
      MatchShift(c.taken, line, banner, 0);
      StepOut(d.found, d.shouldBreak, c')
    else
      StepOut(d.found, d.shouldBreak, c')
  }

  /** The raw-buffer path: peek, decide, read. */
  function PeekStep(c: Chan, banner: seq<bv8>): (r: StepOut)
    ensures exists n :: 0 <= n <= Min(PeekSize, |c.pending|) && r.after == Consume(c, n)
    ensures c.pending == [] ==> r == StepOut(false, true, c)
    ensures c.pending != [] && !r.found ==> !r.shouldBreak && |r.after.pending| < |c.pending|
    ensures r.found ==> r.shouldBreak && BannerTaken(|c.taken|, r.after, banner)
  {
    var preview := c.pending[..Min(PeekSize, |c.pending|)];
    var d := Decide(preview, banner);
    PeekFound(c, banner);
    StepOut(d.found, d.shouldBreak, Consume(c, d.consume))
  }

  /** When the decision on the preview is found, its read consumes the banner
      through the end of its line. */
  lemma PeekFound(c: Chan, banner: seq<bv8>)
    ensures var preview := c.pending[..Min(PeekSize, |c.pending|)];
      var d := Decide(preview, banner);
      d.found ==> BannerTaken(|c.taken|, Consume(c, d.consume), banner)
  {
    var preview := c.pending[..Min(PeekSize, |c.pending|)];
    var d := Decide(preview, banner);
    if d.found {
      assert c.pending[..d.consume] == preview[..d.consume];
      FoundStep(c.taken, preview, banner, d.consume);
    }
  }

  /** A found decision on a preview puts the whole banner line at the end of
      the consumed bytes. */
  lemma FoundStep(t: seq<bv8>, p: seq<bv8>, banner: seq<bv8>, n: nat)
    requires LineRead(p, banner, n)
    ensures exists m :: |t| <= m <= |t + p[..n]|
                     && MatchAt(t + p[..n], banner, m) && LineEndsAfter(t + p[..n], m + |banner|)
  {
    var m :| 0 <= m <= |p| && IsFirstMatch(p, banner, m) && m + |banner| < n <= |p|
      && p[n - 1] == NL && (forall j :: m + |banner| <= j < n - 1 ==> p[j] != NL);
    var read := p[..n];
    assert read[m..m + |banner|] == p[m..m + |banner|];
    assert MatchAt(read, banner, m);
    MatchShift(t, read, banner, m);
    var all := t + read;
    forall j | |t| + m + |banner| <= j < |all| - 1
      ensures all[j] != NL
    {
      assert all[j] == p[j - |t|];
    }
    assert LineEndsAfter(all, |t| + m + |banner|);
  }

  datatype DrainOut = DrainOut(ready: bool, found: bool, after: Chan)

  /** The inner draining loop on one stream: while the readiness check reports
      the stream ready, take a step; stop on found or on should-break.
      `ready` records whether the check ever reported the stream ready. */
  function Drain(c: Chan, banner: seq<bv8>): (r: DrainOut)
    decreases Measure(c), 1
    ensures Later(c, r.after)
    ensures Measure(r.after) <= Measure(c)
    ensures r.ready && !r.found ==> Measure(r.after) < Measure(c)
    ensures Ready(c) ==> r.ready
    // an idle check ends the loop with the stream empty
    ensures !r.ready ==> !r.found && r.after == Deliver(c) && !Ready(r.after)
    ensures r.found ==> BannerTaken(|c.taken|, r.after, banner)
  {
    var d := Deliver(c);
    if d.pending == [] then DrainOut(false, false, d) else Drained(d, banner)
  }

  /** The inner draining loop, entered after the check reported `c` ready. */
  function Drained(c: Chan, banner: seq<bv8>): (r: DrainOut)
    requires Ready(c)
    decreases Measure(c), 0
    ensures r.ready
    ensures Later(c, r.after)
    ensures !r.found ==> Measure(r.after) < Measure(c)
    ensures r.found ==> BannerTaken(|c.taken|, r.after, banner)
  {
    var s := Step(c, banner);
    if s.found || s.shouldBreak then DrainOut(true, s.found, s.after)
    else
      var r := Drain(s.after, banner);
      DrainOut(true, r.found, r.after)
  }

  /** A drain that does not find the banner leaves nothing to read: the loop
      ends only on an idle check, since a step on a ready stream without the
      banner never asks to break. */
  lemma {:induction false} DrainEmpties(c: Chan, banner: seq<bv8>)
    decreases Measure(c), 1
    ensures !Drain(c, banner).found ==> !Ready(Drain(c, banner).after)
  {
    var d := Deliver(c);
    if d.pending != [] {
      DrainedEmpties(d, banner);
    }
  }

  lemma {:induction false} DrainedEmpties(c: Chan, banner: seq<bv8>)
    requires Ready(c)
    decreases Measure(c), 0
    ensures !Drained(c, banner).found ==> !Ready(Drained(c, banner).after)
  {
    var s := Step(c, banner);
    if !s.found && !s.shouldBreak {
      DrainEmpties(s.after, banner);
    }
  }
}
