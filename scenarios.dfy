/** What the poll pass does on a raw stream fed chunk by chunk: pre-banner
    noise is drained and the banner line after it is found (the situation
    of issue #98), while a banner split across two chunks that each lack it
    is missed. */
module Scenarios {
  import opened Bytes
  import opened Chunk
  import opened Channel
  import opened Passes

  /** A chunk of pre-banner output: non-empty, at most one discard slice, and
      without the banner. */
  predicate Noise(chunk: seq<bv8>, banner: seq<bv8>)
  {
    chunk != [] && |chunk| <= DiscardSize && !Occurs(chunk, banner)
  }

  /** Every chunk is noise. */
  predicate AllNoise(chunks: seq<seq<bv8>>, banner: seq<bv8>)
  {
    forall k :: 0 <= k < |chunks| ==> Noise(chunks[k], banner)
  }

  /** One step on a preview that is a whole noise chunk discards it all. */
  lemma StepNoise(c: Chan, banner: seq<bv8>)
    requires c.peekable && Noise(c.pending, banner)
    ensures Step(c, banner) == StepOut(false, false, c.(taken := c.taken + c.pending, pending := []))
  {
    assert c.pending[..Min(PeekSize, |c.pending|)] == c.pending;
    assert Decide(c.pending, banner) == Decision(false, false, |c.pending|);
  }

  /** One step on a preview that is exactly the banner line finds it and
      consumes it all. */
  lemma StepBannerLine(c: Chan, banner: seq<bv8>)
    requires c.peekable && c.pending == banner + [NL] && |banner| < PeekSize
    ensures Step(c, banner) == StepOut(true, true, c.(taken := c.taken + c.pending, pending := []))
  {
    var p := c.pending;
    assert p[..Min(PeekSize, |p|)] == p;
    assert p[0..|banner|] == banner;
    assert FirstMatchFrom(p, banner, 0) == Some(0);
    assert Find(p, NL, |banner|) == |banner|;
    assert Decide(p, banner) == Decision(true, true, |p|);
  }

  /** A check that delivers a noise chunk to an empty raw stream, and the step
      that discards it, lead back to an empty stream with one chunk less. */
  lemma DrainNoiseChunk(c: Chan, banner: seq<bv8>)
    requires c.peekable && c.pending == [] && c.incoming != [] && Noise(c.incoming[0], banner)
    ensures var r := Drain(Chan(true, c.taken + c.incoming[0], [], c.incoming[1..]), banner);
      Drain(c, banner) == DrainOut(true, r.found, r.after)
  {
    var d := Chan(true, c.taken, c.incoming[0], c.incoming[1..]);
    assert Deliver(c) == d;
    StepNoise(d, banner);
    assert Drain(c, banner) == Drained(d, banner);
  }

  /** A check that delivers the banner line to an empty raw stream, and the
      step that consumes it, end the drain with found. */
  lemma DrainBannerChunk(c: Chan, banner: seq<bv8>)
    requires c.peekable && c.pending == [] && c.incoming != []
    requires c.incoming[0] == banner + [NL] && |banner| < PeekSize
    ensures Drain(c, banner) == DrainOut(true, true, Chan(true, c.taken + c.incoming[0], [], c.incoming[1..]))
  {
    var d := Chan(true, c.taken, c.incoming[0], c.incoming[1..]);
    assert Deliver(c) == d;
    StepBannerLine(d, banner);
    assert Drain(c, banner) == Drained(d, banner);
  }

  /** The stream once every chunk has arrived and been consumed. */
  function Emptied(c: Chan): (e: Chan)
    ensures e.pending == [] && e.incoming == [] && e.peekable == c.peekable
  {
    Chan(c.peekable, c.taken + c.pending + Flatten(c.incoming), [], [])
  }

  /** Consuming the first chunk does not change where the stream ends up. */
  lemma EmptiedNext(c: Chan)
    requires c.pending == [] && c.incoming != []
    ensures Emptied(Chan(c.peekable, c.taken + c.incoming[0], [], c.incoming[1..])) == Emptied(c)
  {
    assert c.taken + c.incoming[0] + [] + Flatten(c.incoming[1..]) == c.taken + [] + Flatten(c.incoming);
  }

  /** Draining a raw stream whose chunks to come are all noise consumes all
      of them and never reports found. */
  lemma {:induction false} DrainNoise(c: Chan, banner: seq<bv8>)
    requires c.peekable && c.pending == [] && AllNoise(c.incoming, banner)
    decreases |c.incoming|
    ensures Drain(c, banner) == DrainOut(c.incoming != [], false, Emptied(c))
  {
    if c.incoming != [] {
      var next := Chan(true, c.taken + c.incoming[0], [], c.incoming[1..]);
      assert Noise(c.incoming[0], banner);
      DrainNoiseChunk(c, banner);
      assert AllNoise(next.incoming, banner);
      DrainNoise(next, banner);
      EmptiedNext(c);
    } else {
      assert c == Emptied(c);
    }
  }

  /** Draining a raw stream whose chunks to come are noise followed by the
      banner line finds the banner, having consumed every chunk. */
  lemma {:induction false} DrainNoiseThenBanner(c: Chan, noise: seq<seq<bv8>>, banner: seq<bv8>)
    requires c.peekable && c.pending == [] && c.incoming == noise + [banner + [NL]]
    requires AllNoise(noise, banner) && |banner| < PeekSize
    decreases |noise|
    ensures Drain(c, banner) == DrainOut(true, true, Emptied(c))
  {
    var next := Chan(true, c.taken + c.incoming[0], [], c.incoming[1..]);
    EmptiedNext(c);
    if noise == [] {
      assert next == Emptied(next);
      DrainBannerChunk(c, banner);
    } else {
      assert Noise(noise[0], banner);
      DrainNoiseChunk(c, banner);
      assert next.incoming == noise[1..] + [banner + [NL]];
      DrainNoiseThenBanner(next, noise[1..], banner);
    }
  }

  /** Any amount of noise before the banner line, in chunks as the child
      writes them: the poll pass over that stream reports found in its first
      round, with all the noise and the banner line consumed. */
  lemma NoiseThenBannerFound(c: Chan, noise: seq<seq<bv8>>, banner: seq<bv8>)
    requires c.peekable && c.pending == [] && c.incoming == noise + [banner + [NL]]
    requires AllNoise(noise, banner) && |banner| < PeekSize
    ensures PollPass([c], banner) == PassOut(true, [Emptied(c)])
  {
    DrainNoiseThenBanner(c, noise, banner);
    PollPassSingle(c, banner);
  }

  /** The same with a second registered stream (stderr) that stays silent:
      the first round finds the banner on the first stream and leaves the
      second one as it was. */
  lemma NoiseThenBannerFoundBesideSilent(c: Chan, e: Chan, noise: seq<seq<bv8>>, banner: seq<bv8>)
    requires c.peekable && c.pending == [] && c.incoming == noise + [banner + [NL]]
    requires AllNoise(noise, banner) && |banner| < PeekSize
    requires e.pending == [] && e.incoming == []
    ensures PollPass([c, e], banner) == PassOut(true, [Emptied(c), e])
  {
    DrainNoiseThenBanner(c, noise, banner);
    PollPassFirstFound([c, e], banner);
    assert [c, e][0 := Emptied(c)] == [Emptied(c), e];
  }

  /** A raw stream that only ever carries noise chunks: the poll pass drains all
      of it and returns False. */
  lemma NoiseOnlyNotFound(c: Chan, banner: seq<bv8>)
    requires c.peekable && c.pending == [] && AllNoise(c.incoming, banner)
    ensures PollPass([c], banner) == PassOut(false, [Emptied(c)])
  {
    DrainNoise(c, banner);
    PollPassSingle(c, banner);
    PollPassExhausted([Emptied(c)], banner);
  }

  /** `BANNER_READY` in ASCII, the banner of the issue #98 scenario. */
  const BannerReady: seq<bv8> := [0x42, 0x41, 0x4E, 0x4E, 0x45, 0x52, 0x5F, 0x52, 0x45, 0x41, 0x44, 0x59]

  /** The banner line written in two chunks, `BANNER_RE` and `ADY\n`: the
      output holds the complete banner line, yet each step sees one chunk
      without the banner and discards it, so the pass returns False. */
  lemma SplitBannerMissed()
    ensures var c := Chan(true, [], [], [BannerReady[..9], BannerReady[9..] + [NL]]);
      Content(c) == BannerReady + [NL] && !PollPass([c], BannerReady).found
  {
    var a, b := BannerReady[..9], BannerReady[9..] + [NL];
    assert Noise(a, BannerReady) && Noise(b, BannerReady);
    assert AllNoise([a, b], BannerReady);
    var c := Chan(true, [], [], [a, b]);
    NoiseOnlyNotFound(c, BannerReady);
    assert Flatten([a, b]) == a + Flatten([b]);
    assert Flatten([b]) == b + Flatten([]);
    assert Content(c) == BannerReady + [NL];
  }

  /** The same two chunks under the select pass: the select over all handles
      lets `BANNER_RE` arrive, and the select on the listed stream alone lets
      `ADY\n` arrive before the first step, so the step sees the whole banner
      line and the pass returns True.  Whether a split banner is found thus
      depends on how many readiness checks fall between the writes. */
  lemma SplitBannerFoundBySelect()
    ensures var c := Chan(true, [], [], [BannerReady[..9], BannerReady[9..] + [NL]]);
      DarwinPass([c], BannerReady).found
  {
    var c := Chan(true, [], [], [BannerReady[..9], BannerReady[9..] + [NL]]);
    var line := BannerReady + [NL];
    assert BannerReady[..9] + (BannerReady[9..] + [NL]) == line;
    assert c.incoming[1..] == [BannerReady[9..] + [NL]];
    assert [] + c.incoming[0] == BannerReady[..9];
    assert DeliverAll([c]) == [Chan(true, [], BannerReady[..9], [BannerReady[9..] + [NL]])];
    var d := Chan(true, [], line, []);
    assert Deliver(Chan(true, [], BannerReady[..9], [BannerReady[9..] + [NL]])) == d;
    StepBannerLine(d, BannerReady);
    assert Drain(Chan(true, [], BannerReady[..9], [BannerReady[9..] + [NL]]), BannerReady).found;
  }
}
