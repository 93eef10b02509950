/** `OutputExecutor`: the construction-time checks, one drain step on a
    stream, and the two passes that wait for the banner, as loops over the
    stream objects.  Each method is proved to compute its reference
    definition on stream values (modules Channel and Passes). */
module Executor {
  import opened Bytes
  import opened Chunk
  import opened Channel
  import opened Passes
  import opened Streams

  // ---------------------------------------------------------------------
  // Construction

  /** How a standard stream of the child was configured: not requested
      (None), a file descriptor number (`subprocess.PIPE` is -1) or a file
      object.  Python truthiness: None and descriptor 0 are false. */
  datatype StdConfig = NotRequested | Descriptor(fd: int) | FileObject

  predicate Truthy(s: StdConfig)
  {
    match s
    case NotRequested => false
    case Descriptor(fd) => fd != 0
    case FileObject => true
  }

  datatype InitError = PatternError | NoOutputConfigured

  /** The compiled banner: the text pattern used on text wrappers and the
      byte pattern used on peeked bytes. */
  datatype Detector = Detector(text: seq<bv8>, bytes: seq<bv8>)

  datatype InitResult = Built(detector: Detector) | Failed(error: InitError)

  /** The constructor's checks (`__init__`), with the regular-expression
      compiler as an oracle: `textCompiles` says whether `re.compile(banner)`
      succeeds, `bytesCompile(p)` whether `re.compile(p)` succeeds on the
      byte pattern `p`.  The banner's text and its UTF-8 encoding are the
      same byte sequence here.  `bytesCompile` is not consulted: whichever
      way the byte pattern compiles, the detector holds the banner itself.
      The passes take the banner directly rather than the detector. */
  function Init(banner: seq<bv8>, textCompiles: bool, bytesCompile: seq<bv8> -> bool,
                stdout: StdConfig, stderr: StdConfig): (r: InitResult)
    // a text pattern that does not compile is reported first
    ensures !textCompiles ==> r == Failed(PatternError)
    // otherwise the stream check decides: construction fails exactly when
    // neither stdout nor stderr is configured
    ensures textCompiles ==> (r.Failed? <==> !Truthy(stdout) && !Truthy(stderr))
    // both patterns stand for the banner itself
    ensures r.Built? ==> r.detector == Detector(banner, banner)
  {
    if !textCompiles then Failed(PatternError)
    else
      // when the byte pattern is refused, fall back to the banner taken as a
      // literal (an escaped pattern, which always compiles)
      var detector := Detector(banner, banner);
      if !Truthy(stdout) && !Truthy(stderr) then Failed(NoOutputConfigured)
      else Built(detector)
  }

  /** The constructor as written: when the byte pattern does not compile,
      the fallback compiles `str(banner).encode("utf-8")`, which for a text
      banner is the very same byte pattern, so it fails again and the error
      escapes the constructor. */
  function InitAsWritten(banner: seq<bv8>, textCompiles: bool, bytesCompile: seq<bv8> -> bool,
                         stdout: StdConfig, stderr: StdConfig): (r: InitResult)
    ensures r.Built? ==> r.detector == Detector(banner, banner)
  {
    if !textCompiles then Failed(PatternError)
    else
      // self._banner.pattern is the banner itself
      var pattern := banner;
      // str(banner).encode("utf-8") is the same bytes once more
      var fallback := banner;
      if !bytesCompile(pattern) && !bytesCompile(fallback) then Failed(PatternError)
      else if !Truthy(stdout) && !Truthy(stderr) then Failed(NoOutputConfigured)
      else Built(Detector(banner, banner))
  }

  /** The fallback never rescues construction: a banner whose text form
      compiles but whose byte form does not fails with a pattern error even
      with an output stream configured, where `Init` succeeds. */
  lemma FallbackNeverRescues(banner: seq<bv8>, bytesCompile: seq<bv8> -> bool, stdout: StdConfig, stderr: StdConfig)
    requires !bytesCompile(banner) && (Truthy(stdout) || Truthy(stderr))
    ensures InitAsWritten(banner, true, bytesCompile, stdout, stderr) == Failed(PatternError)
    ensures Init(banner, true, bytesCompile, stdout, stderr) == Built(Detector(banner, banner))
  {
  }

  /** Where the byte pattern compiles, the constructor as written and `Init` agree. */
  lemma InitAgrees(banner: seq<bv8>, textCompiles: bool, bytesCompile: seq<bv8> -> bool,
                   stdout: StdConfig, stderr: StdConfig)
    requires bytesCompile(banner)
    ensures InitAsWritten(banner, textCompiles, bytesCompile, stdout, stderr)
      == Init(banner, textCompiles, bytesCompile, stdout, stderr)
  {
  }

  /** One call of `_consume_until_banner_or_block(output)`: a line read on a
      text wrapper without a raw buffer, a peek and one read otherwise. */
  method ConsumeUntilBannerOrBlock(banner: seq<bv8>, output: Stream) returns (found: bool, shouldBreak: bool)
    modifies output
    ensures StepOut(found, shouldBreak, output.State()) == Step(old(output.State()), banner)
  {
    if !output.peekable {
      found, shouldBreak := ConsumeLine(banner, output);
    } else {
      found, shouldBreak := ConsumePeeked(banner, output);
    }
  }

  /** The text-wrapper fallback: read one line, match the banner at its start. */
  method ConsumeLine(banner: seq<bv8>, output: Stream) returns (found: bool, shouldBreak: bool)
    modifies output
    ensures StepOut(found, shouldBreak, output.State()) == LineStep(old(output.State()), banner)
  {
    var line := output.ReadLine();
    ghost var d := DecideLine(line, banner);
    if line == [] {
      return false, true;
    }
    if |banner| <= |line| && line[..|banner|] == banner {
      assert d.found && d.shouldBreak;
      return true, true;
    }
    assert !d.found && !d.shouldBreak;
    return false, false;
  }

  /** The raw-buffer path: peek at most 64 KiB, search, then one consuming read. */
  method ConsumePeeked(banner: seq<bv8>, output: Stream) returns (found: bool, shouldBreak: bool)
    modifies output
    ensures StepOut(found, shouldBreak, output.State()) == PeekStep(old(output.State()), banner)
  {
    var preview := output.Peek(PeekSize);
    ghost var d := Decide(preview, banner);
    if preview == [] {
      return false, true;
    }
    var m := Search(preview, banner);
    if m.None? {
      assert d == Decision(false, false, Min(|preview|, DiscardSize));
      var _ := output.Read(Min(|preview|, DiscardSize));
      return false, false;
    }
    var nlPos := Find(preview, NL, m.value + |banner|);
    if nlPos == -1 {
      assert d == Decision(false, false, |preview|);
      var _ := output.Read(|preview|);
      return false, false;
    }
    assert d == Decision(true, true, nlPos + 1);
    var _ := output.Read(nlPos + 1);
    return true, true;
  }

  /** The inner loop both passes run on one stream: while the zero-timeout
      readiness check reports it ready, take a step; return on found, stop on
      should-break.  `ready` says whether the check ever reported ready. */
  method DrainWhileReady(banner: seq<bv8>, output: Stream) returns (ready: bool, found: bool)
    modifies output
    ensures DrainOut(ready, found, output.State()) == Drain(old(output.State()), banner)
  {
    ghost var goal := Drain(output.State(), banner);
    ready, found := false, false;
    var more := output.Poll();
    while more
      invariant more ==> Ready(output.State())
      invariant more ==> goal == Drained(output.State(), banner)
      invariant !more ==> goal == DrainOut(ready, false, output.State())
      decreases Measure(output.State())
    {
      ready := true;
      var f, shouldBreak := ConsumeUntilBannerOrBlock(banner, output);
      if f {
        found := true;
        return;
      }
      if shouldBreak {
        break;
      }
      more := output.Poll();
    }
  }

  /** A call on `ss[i]` alone leaves the other distinct handles as they were. */
  lemma OthersUnchanged(ss: seq<Stream>, i: nat, before: seq<Chan>)
    requires Distinct(ss) && i < |ss| && |before| == |ss|
    requires forall l :: 0 <= l < |ss| && l != i ==> ss[l].State() == before[l]
    ensures States(ss) == before[i := ss[i].State()]
  {
    StatesAre(ss, before[i := ss[i].State()]);
  }

  /** `_wait_for_output(*polls)`: while some poll reported ready in the last
      round, poll and drain every registered stream in turn; True at the
      first found. */
  method WaitForOutput(banner: seq<bv8>, polls: seq<Stream>) returns (found: bool)
    requires Distinct(polls)
    modifies polls
    ensures PassOut(found, States(polls)) == PollPass(old(States(polls)), banner)
  {
    ghost var goal := PollPass(States(polls), banner);
    found := false;
    var anyReady := true;
    while anyReady
      invariant goal == if anyReady then PollPass(States(polls), banner) else PassOut(false, States(polls))
      decreases Total(States(polls)) + (if anyReady then 1 else 0)
    {
      found, anyReady := PollRound(banner, polls);
      if found {
        return;
      }
    }
  }

  /** One iteration of the `while any_ready` loop: `any_ready` is reset, then
      each registered stream is polled and drained while ready. */
  method PollRound(banner: seq<bv8>, polls: seq<Stream>) returns (found: bool, anyReady: bool)
    requires Distinct(polls)
    modifies polls
    ensures RoundOut(found, anyReady, States(polls)) == Round(old(States(polls)), 0, false, banner)
  {
    ghost var round := Round(States(polls), 0, false, banner);
    anyReady := false;
    for i := 0 to |polls|
      invariant round == Round(States(polls), i, anyReady, banner)
    {
      ghost var before := States(polls);
      var ready, f := DrainWhileReady(banner, polls[i]);
      OthersUnchanged(polls, i, before);
      anyReady := anyReady || ready;
      if f {
        return true, anyReady;
      }
    }
    found := false;
  }

  /** `_wait_for_darwin_output(*fds)`: drop the None handles; then, until a
      zero-timeout select over all of them lists none, drain each listed
      stream while a select on it alone reports it ready; True at the first
      found. */
  method WaitForDarwinOutput(banner: seq<bv8>, fds: seq<Stream?>) returns (found: bool)
    requires Distinct(NonNull(fds))
    modifies NonNull(fds)
    ensures NonNull(fds) == [] ==> !found
    ensures PassOut(found, States(NonNull(fds))) == DarwinPass(old(States(NonNull(fds))), banner)
  {
    var valid := NonNull(fds);
    if valid == [] {
      return false;
    }
    ghost var goal := DarwinPass(States(valid), banner);
    found := false;
    while true
      invariant goal == DarwinPass(States(valid), banner)
      decreases Total(States(valid))
    {
      ghost var start := States(valid);
      DeliverAllTotal(start);
      var rlist, idx := Select(valid);
      if rlist == [] {
        break;
      }
      found := DrainListed(banner, valid, rlist, idx);
      if found {
        return;
      }
    }
  }

  /** `for output in rlist`: drain each listed stream while a select on it
      alone reports it ready; True at the first found. */
  method DrainListed(banner: seq<bv8>, valid: seq<Stream>, rlist: seq<Stream>, ghost idx: seq<nat>)
    returns (found: bool)
    requires Distinct(valid) && Picks(rlist, valid, idx)
    modifies valid
    ensures Listed(old(States(valid)), idx)
    ensures PassOut(found, States(valid)) == DrainEach(old(States(valid)), idx, 0, banner)
  {
    ghost var each := DrainEach(States(valid), idx, 0, banner);
    for k := 0 to |rlist|
      invariant each == DrainEach(States(valid), idx, k, banner)
    {
      ghost var before := States(valid);
      var ready, f := DrainWhileReady(banner, rlist[k]);
      OthersUnchanged(valid, idx[k], before);
      if f {
        return true;
      }
    }
    found := false;
  }
}
