/** The decision at the heart of `_consume_until_banner_or_block`: given the
    bytes a single step sees, whether the banner was found, whether the caller
    should stop draining this stream, and how many bytes the one consuming
    read takes. */
module Chunk {
  import opened Bytes

  /** The largest preview requested from `peek` (64 KiB). */
  const PeekSize: nat := 65536
  /** The most bytes discarded from a preview that holds no banner (8 KiB). */
  const DiscardSize: nat := 8192

  datatype Decision = Decision(found: bool, shouldBreak: bool, consume: nat)

  /** The first banner match is followed, at or after its end, by a newline at `j`. */
  predicate NewlineAfterMatch(p: seq<bv8>, banner: seq<bv8>, m: int, j: int)
  {
    IsFirstMatch(p, banner, m) && m + |banner| <= j < |p| && p[j] == NL
  }

  /** Reading `n` bytes of `p` takes the whole first match and stops at the
      first newline after it. */
  predicate LineRead(p: seq<bv8>, banner: seq<bv8>, n: int)
  {
    exists m :: 0 <= m <= |p| && IsFirstMatch(p, banner, m) && m + |banner| < n <= |p|
      && p[n - 1] == NL && (forall j :: m + |banner| <= j < n - 1 ==> p[j] != NL)
  }

  /** The first banner match exists but no newline follows its end yet. */
  predicate BannerLineOpen(p: seq<bv8>, banner: seq<bv8>)
  {
    exists m :: 0 <= m <= |p| && IsFirstMatch(p, banner, m)
      && forall j :: m + |banner| <= j < |p| ==> p[j] != NL
  }

  /** Raw-stream path: decide on a peeked preview. */
  function Decide(p: seq<bv8>, banner: seq<bv8>): (d: Decision)
    // one consuming read of at most what was peeked
    ensures d.consume <= |p|
    // nothing available: stop draining, consume nothing
    ensures p == [] ==> d == Decision(false, true, 0)
    // the caller stops exactly when nothing was available or the banner was found,
    // and every step that lets it continue consumes at least one byte
    ensures d.shouldBreak <==> (p == [] || d.found)
    ensures !d.shouldBreak ==> 0 < d.consume
    // no banner: discard a bounded slice (positive when the preview is non-empty)
    ensures p != [] && !Occurs(p, banner) ==> d == Decision(false, false, Min(|p|, DiscardSize))
    // found exactly when a newline follows the end of the first match
    ensures d.found <==> exists m, j :: NewlineAfterMatch(p, banner, m, j)
    // when found, the read stops at the first such newline and contains the whole match
    ensures d.found ==> LineRead(p, banner, d.consume)
    // banner present but its line not yet terminated: consume the whole preview, not found
    ensures p != [] && BannerLineOpen(p, banner) ==> d == Decision(false, false, |p|)
  {
    if |p| == 0 then Decision(false, true, 0)
    else
      match Search(p, banner)
      case None => Decision(false, false, Min(|p|, DiscardSize))
      case Some(m) =>
        var nl := Find(p, NL, m + |banner|);
        if nl == -1 then Decision(false, false, |p|)
        else
          assert NewlineAfterMatch(p, banner, m, nl);
          Decision(true, true, nl + 1)
  }

  /** The line `readline` returns from the available bytes: through the first
      newline, or everything when no newline is available. */
  function LineOf(s: seq<bv8>): (line: seq<bv8>)
    ensures line <= s
    ensures s != [] ==> line != []
    ensures NL in s ==> line[|line| - 1] == NL && NL !in line[..|line| - 1]
    ensures NL !in s ==> line == s
  {
    var nl := Find(s, NL, 0);
    if nl == -1 then s else s[..nl + 1]
  }

  /** Text-wrapper path: decide on the line `readline` returned. */
  function DecideLine(line: seq<bv8>, banner: seq<bv8>): (d: Decision)
    ensures d.consume == |line|
    // end of file: stop draining, not found
    ensures line == [] ==> !d.found && d.shouldBreak
    // a line is reported found exactly when the banner matches at its start
    ensures line != [] ==> (d.found <==> MatchAt(line, banner, 0))
    ensures line != [] ==> d.shouldBreak == d.found
  {
    if line == [] then Decision(false, true, 0)
    else if |banner| <= |line| && line[..|banner|] == banner then Decision(true, true, |line|)
    else Decision(false, false, |line|)
  }
}
