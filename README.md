# mirakuru `OutputExecutor`: banner detection over child-process output

mirakuru starts a child process and considers it started once a *banner* (a
regular expression) appears in its standard output or standard error.
`OutputExecutor` (mirakuru/output.py) waits for it with one of two draining
passes over the child's output handles:

- a `poll`-based pass (`_wait_for_output`);
- a `select`-based pass (`_wait_for_darwin_output`).

Both passes repeat the same drain step (`_consume_until_banner_or_block`) on
every stream that the zero-timeout readiness check reports ready:

- peek at most 64 KiB;
- search the preview for the banner;
- make exactly one consuming read, which discards at most 8 KiB when the banner
  is absent, takes the whole preview when the banner's line has no newline yet,
  and reads through the first newline after the match when it does.

On a text wrapper without a raw buffer, the step instead reads one line and
matches the banner at its start. The constructor keeps a byte form of the
pattern next to the text form, and refuses a configuration with neither stdout
nor stderr.

The project models this in Dafny:

- `Bytes`: literal pattern search and `find`.
- `Chunk`: the step's decision on a preview or a line, as pure functions.
- `Channel`: one stream as a value, with the reference definitions of a step and
  of the inner draining loop.
- `Passes`: the two passes as reference functions on stream values, with their
  properties as lemmas.
- `Streams`: the output handle as a mutable `Stream` object, and `select` over a
  list of handles.
- `Executor`: the constructor's checks, the drain step and both passes as
  methods with loops over `Stream` objects, each proved to compute its reference
  function.
- `Scenarios`: pre-banner noise (issue #98) and a banner split across chunks.
- `Hangup`: the poll pass under hang-up readiness (see Findings).

A stream is modelled by four parts:

- `taken`: everything consumed so far;
- `pending`: the bytes readable now;
- `incoming`: the chunks the child writes later, of which the next one arrives
  at each zero-timeout readiness check;
- `peekable`: whether the handle has a raw buffer.

A stream is ready when it has bytes to read. A stream's future output is a
finite list of chunks, and termination of every loop is proved on the measure
"unread bytes plus bytes still to arrive". This describes the program only
while the child keeps its pipes open: a closed pipe is also reported ready, and
it hangs the loop (see "## Findings" and `Hangup`). A child that never stops
writing is also outside this model (see "## Left out").

The docstring of `_wait_for_darwin_output` (mirakuru/output.py:162-165) speaks
of searching for the banner "on a rolling buffer", which would find a banner
line however the reads cut it. The code keeps no such buffer, and the model
follows the code. In the poll pass, a banner that arrives split across
chunks of at most 8 KiB that each lack it is discarded piece by piece
(`Scenarios.SplitBannerMissed`). So is a banner whose line had no newline yet
when it was consumed. In the select pass, the select over all handles and the
select on the listed stream alone each let a chunk arrive before the first
step, so the same two chunks meet and the banner is found
(`Scenarios.SplitBannerFoundBySelect`). In both the program and the model,
whether a split banner is found depends on how many readiness checks fall
between the writes. In the model, where a peek returns every available byte
up to 64 KiB, a chunk longer than 8 KiB is discarded only up to its first
8 KiB, so the start of a banner at its end can still meet the rest; with a
reader buffer of at most 8 KiB the program discards every banner-free preview
whole.

## Model

| member | source | states |
|---|---|---|
| `Bytes.Search` | mirakuru/output.py:147 | the banner search returns the leftmost occurrence, and returns None exactly when the banner does not occur in the preview |
| `Bytes.FirstMatchFrom` | mirakuru/output.py:147 | the first occurrence at or after an offset; None means no occurrence from there on |
| `Bytes.Find` | mirakuru/output.py:152 | `find(b"\n", start)` gives -1 exactly when no newline lies at or after `start`, and otherwise the first one |
| `Chunk.Decide` | mirakuru/output.py:144-157 | empty preview: (False, True), nothing consumed; no banner: (False, False), consuming min(len, 8192); banner with a later newline: (True, True), consuming through the first newline after the match, all of the match included; banner with no newline after it: (False, False), consuming the whole preview; found iff some newline follows the match; every non-breaking outcome consumes at least one byte, and no outcome consumes more than was peeked |
| `Chunk.LineOf` | mirakuru/output.py:138 | `readline` returns a prefix of the available bytes: through the first newline, or everything when there is none, and non-empty when anything is available |
| `Chunk.DecideLine` | mirakuru/output.py:139-143 | text fallback: an empty line gives (False, True); a line that starts with the banner gives (True, True); any other line gives (False, False); the whole line is consumed |
| `Channel.Deliver` | mirakuru/output.py:208 | a readiness check only adds output that was still to come; nothing consumed is lost and the work measure does not grow |
| `Channel.Consume` | mirakuru/output.py:150-156 | a consuming read moves exactly the first `n` available bytes to the consumed part, and lowers the work measure by `n` |
| `Channel.Step` | mirakuru/output.py:127-157 | one step consumes a prefix of the available bytes, at most 64 KiB on a raw stream (in the program, only for a reader buffer of at most 64 KiB, see `Streams.Stream.Peek` under "## Left out"); with nothing available it is (False, True) with nothing consumed; without found it never breaks on available data and always consumes; found means the banner was consumed, through the end of its line on a raw stream |
| `Channel.LineStep` | mirakuru/output.py:135-143 | the line read consumes exactly `readline`'s line; found means the banner sits at the start of that line |
| `Channel.PeekStep` | mirakuru/output.py:144-157 | the raw path makes one read of at most min(64 KiB, available) bytes (in the program, only for a reader buffer of at most 64 KiB); found means the banner was consumed through the first newline after it |
| `Channel.PeekFound` | mirakuru/output.py:152-157 | a found decision on the preview makes the read consume the banner through the end of its line |
| `Channel.FoundStep` | mirakuru/output.py:152-157 | reading through the newline after the first match leaves that match, and the end of its line, at the end of the consumed bytes |
| `Channel.Drain` | mirakuru/output.py:208-215 | the inner loop keeps the stream's output; it strictly lowers the work measure when it was ready and did not find; a first check that finds nothing to read ends it at once, with nothing consumed; found means the banner was consumed |
| `Channel.Drained` | mirakuru/output.py:209-215 | after a ready check, the loop either finds the banner or strictly reduces the work left |
| `Channel.DrainEmpties` | mirakuru/output.py:194-195 | a drain that does not find the banner ends with nothing left to read on the stream ("drain as much data as available"); in the program this holds only for a reader buffer of at most 8 KiB (see `Streams.Stream.Peek` under "## Left out") |
| `Channel.DrainedEmpties` | mirakuru/output.py:209-215 | the same, for the loop entered after a ready check: without found it stops only on an idle check |
| `Passes.Round` | mirakuru/output.py:205-215 | a round never increases the work left; it reports ready when an earlier stream did; a round that some poll reported ready and that did not find strictly reduces the work left (so `while any_ready` terminates when the child's output is finite and its pipes stay open; a closed pipe hangs the loop, see "## Findings") |
| `Passes.RoundLater` | mirakuru/output.py:205-215 | a round only moves each stream to a later state of itself: same output, consumed bytes kept |
| `Passes.RoundKeeps` | mirakuru/output.py:206 | a round from stream `i` on leaves the earlier streams alone |
| `Passes.RoundIdle` | mirakuru/output.py:205-215 | a round in which no poll reported ready leaves every stream with nothing to read |
| `Passes.RoundFound` | mirakuru/output.py:210-212 | a round reports found only when one of its drains consumed the banner, and it stops there: every stream after that one is left unpolled and unchanged |
| `Passes.PollPass` | mirakuru/output.py:201-217 | the reference definition of `_wait_for_output`: rounds repeat while some poll reported ready, the pass returns True at the first found, and it terminates on finite output while the child keeps its pipes open (`decreases` on the work left; a closed pipe hangs the loop, see "## Findings"); its contract keeps one state per stream, and its properties are `PollPassLater`, `PollPassIdle` and `PollPassFound` |
| `Passes.PollPassLater` | mirakuru/output.py:204-216 | the poll pass keeps every stream's output and everything already consumed |
| `Passes.PollPassIdle` | mirakuru/output.py:204-217 | the poll pass returns False only when no stream has anything left to read; in the program this holds only for a reader buffer of at most 8 KiB (see `Streams.Stream.Peek` under "## Left out") |
| `Passes.PollPassFound` | mirakuru/output.py:210-212 | the poll pass returns True only when some stream's banner was consumed during the pass, through the end of its line on a raw stream |
| `Passes.PollPassSingle` | mirakuru/output.py:204-216 | with one registered stream, a round is one drain of it |
| `Passes.PollPassFirstFound` | mirakuru/output.py:206-212 | when the drain of the first registered stream finds the banner, the poll pass returns True at once and no other stream is touched |
| `Passes.DeliverAll` | mirakuru/output.py:175 | the select over all handles makes one readiness check of each |
| `Passes.DeliverAllTotal` | mirakuru/output.py:175 | that select consumes nothing, loses nothing and does not increase the work left |
| `Passes.ReadyBelow` | mirakuru/output.py:175 | `rlist` holds exactly the ready handles, in their order among the handles |
| `Passes.DrainEach` | mirakuru/output.py:178-187 | draining the listed streams never increases the work left, and strictly lowers it when the first listed stream is ready and nothing is found |
| `Passes.DrainEachLater` | mirakuru/output.py:178-187 | draining the listed streams keeps every stream's output and what was consumed |
| `Passes.DrainEachStops` | mirakuru/output.py:183-185 | found means the drain of one listed stream consumed its banner, and the loop returned there: every stream not listed up to that one keeps its state |
| `Passes.DarwinPass` | mirakuru/output.py:172-189 | the reference definition of the select loop of `_wait_for_darwin_output`: a select over all handles, then each listed stream drained while a select on it alone reports it ready, repeated until a select lists none; True at the first found; it terminates on finite output while the child keeps its pipes open (`decreases` on the work left; a closed pipe is reported readable here too, see "## Left out"); its contract keeps one state per stream, and its properties are `DarwinPassLater`, `DarwinPassIdle` and `DarwinPassFound` |
| `Passes.DarwinPassLater` | mirakuru/output.py:172-189 | the select pass keeps every stream's output and everything already consumed |
| `Passes.DarwinPassIdle` | mirakuru/output.py:174-177 | the select pass returns False only after a select that found no stream with anything to read; in the program this holds only for a reader buffer of at most 8 KiB (see `Streams.Stream.Peek` under "## Left out") |
| `Passes.DarwinPassFound` | mirakuru/output.py:183-185 | the select pass returns True only when some stream's banner was consumed, through the end of its line on a raw stream |
| `Passes.RoundExhausted` | mirakuru/output.py:205-215 | on streams with nothing to read and nothing to come, a round changes nothing and reports not ready |
| `Passes.PollPassExhausted` | mirakuru/output.py:204-217 | on such streams the poll pass returns False and changes nothing |
| `Passes.DarwinPassExhausted` | mirakuru/output.py:174-177 | on such streams the select pass returns False and changes nothing |
| `Streams.Stream.Poll` | mirakuru/output.py:208 | `poll(0)` on a pipe whose writer keeps it open: the next chunk arrives, and the result is whether bytes can be read (a closed pipe's readiness is left to `Hangup`, see "## Left out") |
| `Streams.Stream.Peek` | mirakuru/output.py:144 | `peek(n)` returns at most `n` available bytes and consumes nothing |
| `Streams.Stream.Read` | mirakuru/output.py:150-156 | `read(n)` returns and consumes the first min(n, available) bytes |
| `Streams.Stream.ReadLine` | mirakuru/output.py:138 | `readline()` returns and consumes one line of the available bytes |
| `Streams.Present` | mirakuru/output.py:168 | the positions of the non-None handles: every one of them, only those, in increasing order |
| `Streams.PresentPrefix` | mirakuru/output.py:168 | which handles are present among the first `n` depends only on those `n` |
| `Streams.NonNull` | mirakuru/output.py:168 | the tuple of non-None handles is no longer than the argument list |
| `Streams.NonNullInOrder` | mirakuru/output.py:168 | the tuple of non-None handles holds, in turn, the handle at each present position, so stdout stays before stderr and nothing else is kept |
| `Streams.PollAt` | mirakuru/output.py:180 | checking one handle of a list of distinct handles leaves the others untouched |
| `Streams.Select` | mirakuru/output.py:175 | `select(fds, [], [], 0)` checks every handle once and lists the ready ones in order |
| `Streams.SelectNext` | mirakuru/output.py:175 | one handle of that select: the handle is checked, the others keep their state, and it is listed exactly when it is ready |
| `Executor.Init` | mirakuru/output.py:58-66 | a text pattern that does not compile is an error; otherwise construction fails exactly when neither stdout nor stderr is configured; a byte pattern that does not compile falls back to the literal banner, so the built detector holds the banner in both forms whatever the byte compiler says |
| `Executor.InitAsWritten` | mirakuru/output.py:58-66 | the constructor as written, whose fallback compiles the same byte pattern again |
| `Executor.FallbackNeverRescues` | mirakuru/output.py:60-64 | a banner whose byte form does not compile makes construction fail as written, while `Init` succeeds |
| `Executor.InitAgrees` | mirakuru/output.py:60-64 | when the byte pattern compiles, the code as written and `Init` agree |
| `Executor.ConsumeUntilBannerOrBlock` | mirakuru/output.py:127-157 | computes `Channel.Step`: the same (found, should_break) and the same new stream state |
| `Executor.ConsumeLine` | mirakuru/output.py:135-143 | computes `Channel.LineStep` with `readline` and a banner match at the start of the line |
| `Executor.ConsumePeeked` | mirakuru/output.py:144-157 | computes `Channel.PeekStep` with one peek, the search and one read |
| `Executor.DrainWhileReady` | mirakuru/output.py:208-215 | computes `Channel.Drain` on the stream object |
| `Executor.PollRound` | mirakuru/output.py:205-215 | computes `Passes.Round` over the registered streams |
| `Executor.WaitForOutput` | mirakuru/output.py:191-217 | computes the poll pass `Passes.PollPass` over the registered streams: its result and every stream's new state |
| `Executor.WaitForDarwinOutput` | mirakuru/output.py:159-189 | False when every handle is None; otherwise computes the select pass `Passes.DarwinPass` over the non-None handles |
| `Executor.DrainListed` | mirakuru/output.py:178-187 | computes `Passes.DrainEach` over the streams `select` listed |
| `Executor.OthersUnchanged` | mirakuru/output.py:206 | draining one of several distinct handles changes only that handle's state |
| `Scenarios.StepNoise` | mirakuru/output.py:147-151 | a step on a preview of at most 8 KiB without the banner discards it all and goes on |
| `Scenarios.StepBannerLine` | mirakuru/output.py:152-157 | a step on a preview that is exactly the banner line reports found and consumes it |
| `Scenarios.DrainNoiseChunk` | mirakuru/output.py:208-215 | one chunk of noise is delivered and discarded before the drain goes on |
| `Scenarios.DrainBannerChunk` | mirakuru/output.py:208-212 | the banner line delivered to an empty stream is found |
| `Scenarios.DrainNoise` | mirakuru/output.py:208-215 | a raw stream whose chunks to come are all noise (each non-empty, at most 8 KiB and without the banner) is drained completely and the banner is never reported |
| `Scenarios.DrainNoiseThenBanner` | mirakuru/output.py:208-215 | noise chunks followed by the banner line: the drain finds the banner after consuming everything |
| `Scenarios.NoiseThenBannerFound` | tests/executors/test_output_executor_regression_issue_98.py:21-52 | with a single registered stream: on a raw stream whose pre-banner output arrives in any number of chunks, each non-empty, at most 8 KiB and without the banner, followed by the banner line as a chunk of its own, the poll pass reports the banner in its first round with everything consumed; a banner line cut differently can be lost (`Scenarios.SplitBannerMissed`) |
| `Scenarios.NoiseThenBannerFoundBesideSilent` | tests/executors/test_output_executor_regression_issue_98.py:44-52 | the same with stdout and stderr both registered and stderr silent: the first round finds the banner on stdout, with everything consumed, and leaves stderr as it was |
| `Scenarios.NoiseOnlyNotFound` | mirakuru/output.py:201-217 | a raw stream that carries only noise chunks (each non-empty, at most 8 KiB and without the banner) is drained to the end, and the pass returns False |
| `Scenarios.SplitBannerMissed` | mirakuru/output.py:147-151 | `BANNER_RE` followed by `ADY\n`: the output holds the full banner line, yet the poll pass returns False |
| `Scenarios.SplitBannerFoundBySelect` | mirakuru/output.py:174-185 | the same two chunks under the select pass: the top-level select and the select on the stream alone each deliver one, and the pass returns True |
| `Hangup.HupDrain` | mirakuru/output.py:208-215 | the inner loop with hang-up readiness terminates, never grows the work left, and only moves the stream to a later state of itself |
| `Hangup.HupDrained` | mirakuru/output.py:209-215 | the same loop, entered after a check that reported the stream ready or hung up |
| `Hangup.HupRound` | mirakuru/output.py:205-215 | a round with hang-up readiness only moves each stream to a later state of itself: same output, consumed bytes kept |
| `Hangup.HupRoundExhausted` | mirakuru/output.py:205-215 | on exhausted streams such a round changes nothing, and reports ready exactly when some stream was closed by its writer |
| `Hangup.ClosedStreamSpins` | mirakuru/output.py:204-216 | with a closed, exhausted stream, a round reports `any_ready` and leaves all state unchanged, so the loop never exits |

## Left out

- `start()`, the `SimpleExecutor` base, `wait_for`'s timeout and sleep, and the registration of `poll` objects (mirakuru/output.py:68-125) are process and OS plumbing, outside this model. A registered poll object is modelled by its stream.
- The regular-expression engine is abstracted as a literal byte-pattern search. The search reports the leftmost occurrence, which ends `|banner|` bytes after it starts. The text `match` is "the line starts with the banner".
- Whether a pattern compiles is an oracle parameter of `Executor.Init`.
- The text pattern and its UTF-8 encoding are the same byte sequence in the model.
- Platform detection (`IS_DARWIN`, mirakuru/output.py:27) is left out: the two passes are separate methods.
- The child's writes arrive as chunks, one at each zero-timeout readiness check; writes between checks are not interleaved otherwise. Concurrency with the writer is not modelled.
- `Passes.PollPass`, `Passes.DarwinPass`, `Executor.WaitForOutput`, `Executor.WaitForDarwinOutput`: termination is proved only for finite output, because a stream's future output is the finite list `incoming`. A child that keeps its pipe non-empty (one that prints endlessly without the banner) makes every `p.poll(0)` report ready (mirakuru/output.py:208), so `while any_ready` (mirakuru/output.py:204), like `while True` (mirakuru/output.py:174), never returns, and `wait_for` never reaches its timeout. The model does not capture this.
- `Streams.Stream.Peek`: returns all available bytes up to `n`. The CPython buffered `peek` ignores `n` and may return fewer or more than `n`: one buffer's worth. That is not modelled. So the 64 KiB bound that `Channel.Step` and `Channel.PeekStep` state holds in the program only for a reader buffer of at most 64 KiB (a larger `bufsize` lets lines 154 and 156 of mirakuru/output.py read more). With a buffer of at most 8 KiB, every banner-free preview is discarded whole. With a larger buffer, a banner-free preview longer than 8 KiB is read only up to 8 KiB (lines 149-150). The rest stays in the reader's buffer, where `poll` and `select` (lines 175, 180 and 208), which look only at the pipe, do not report it. The pass can then return False with those bytes unread, whereas the model counts them as available and ready. So `Channel.DrainEmpties`, `Passes.PollPassIdle` and `Passes.DarwinPassIdle` hold in the program only for a reader buffer of at most 8 KiB.
- `Streams.Stream.Poll`: `poll(0)` and `select(..., 0)` also report a pipe whose writer has closed it (POLLHUP, end of file) although no byte can be read. `Poll` and `Channel.Ready` count a stream ready only when it has bytes, so `Passes.PollPass`, `Passes.DarwinPass`, `Executor.WaitForOutput` and `Executor.WaitForDarwinOutput` describe the program only while every writer keeps its pipe open. Hang-up readiness is modelled only in `Hangup`, for the poll pass (see "## Findings").
- `Streams.Stream.ReadLine`: returns the available bytes up to the first newline, or all of them. A text wrapper that blocks waiting for the rest of a line is not modelled. No available bytes reads as end of file.
- Text decoding and the text wrapper's own buffering are not modelled; text lines are bytes.
- The inner draining loop, one round of the poll pass, and the loop over `rlist` are written inline in the source; here they are the methods `Executor.DrainWhileReady`, `Executor.PollRound` and `Executor.DrainListed`. The two paths of the step are `Executor.ConsumeLine` and `Executor.ConsumePeeked`.
- The select pass under hang-up readiness (`select` reports a closed pipe readable, mirakuru/output.py:175-182) has the same shape as the poll pass's hang; only the poll pass is modelled as written.
- Chunk-boundary independence (the "rolling buffer" of mirakuru/output.py:163-164) is not proved because the code does not have it; `Scenarios.SplitBannerMissed` shows the counterexample.

## Findings

| source | as written | input that shows it | evidently intended | confidence | as-written member | corrected member |
|---|---|---|---|---|---|---|
| mirakuru/output.py:204-214 | `p.poll(0)` also reports a pipe whose writer has closed it (POLLHUP). The step then peeks `b""` and returns (False, True), yet `any_ready` is set, so every round repeats unchanged. | the child exits, or closes stdout, before printing the banner: the stream is exhausted and closed | return False once no stream has bytes to read, so that the base executor's timeout can fire | medium; not executed | `Hangup.ClosedStreamSpins` | `Passes.PollPassExhausted` |
| mirakuru/output.py:60-64 | the fallback compiles `str(banner).encode("utf-8")`. For a text banner this is the same byte pattern that just failed, so the error escapes the constructor. | banner `\u0041` or `(?u)READY`: the text pattern compiles, the byte pattern does not | fall back to the banner as a literal byte pattern, so construction succeeds | medium; not executed | `Executor.FallbackNeverRescues` | `Executor.Init` |
