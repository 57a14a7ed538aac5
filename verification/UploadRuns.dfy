/** Exactly which upload requests let the runner's copy end cleanly on a truncated body. */
module UploadRuns {
  import opened Common
  import opened Pipes
  import opened UploadProtocol
  import opened UploadSafety
  import BlockCopy

  ghost predicate Reachable(s: Session) {
    exists steps :: Run(steps) == Some([s])
  }

  /** `R` holds of a newly reserved session for `req` and is kept by every action. */
  ghost predicate Inductive(req: Request, R: Session -> bool) {
    && R(Reserved("stage", "hash", "actor", req))
    && forall s, a :: R(s) && SessionStep(s, a).Some? ==> R(SessionStep(s, a).value)
  }

  lemma ReachableIsInductive(req: Request)
    ensures Inductive(req, s => Reachable(s))
  {
    var s0 := Reserved("stage", "hash", "actor", req);
    var steps := [Reserve("stage", "hash", "actor", req)];
    assert steps[..0] == [] && Active([]) == {} && [] + [s0] == [s0];
    assert Run([]) == Some([]);
    assert Run(steps) == Some([s0]);
    forall s, a | Reachable(s) && SessionStep(s, a).Some? ensures Reachable(SessionStep(s, a).value) {
      var run :| Run(run) == Some([s]);
      var s' := SessionStep(s, a).value;
      var run' := run + [Act(0, a)];
      assert run'[..|run'| - 1] == run && [s][0 := s'] == [s'];
      assert Run(run') == Some([s']);
    }
  }

  /** Both handlers copying: `read` bytes read, all but the block before `read` passed on. */
  function Midway(req: Request, read: nat): (s: Session)
    requires TailLength(read) <= read <= |req.body.content|
  {
    var gone := req.body.content[..read - TailLength(read)];
    Reserved("stage", "hash", "actor", req).(
      entry := Entry("stage", "hash", true, true),
      ch := Channels(true, false, None, OPEN),
      browser := Copy(read, req.body.content[read - TailLength(read)..read]),
      browserWatcher := Watching, runner := Reading, runnerWatcher := Watching,
      log := Log(gone, gone, None, false, false, 0))
  }

  lemma BrowserStarts(req: Request, R: Session -> bool) returns (s: Session)
    requires Inductive(req, R) && 1 <= req.bytes <= MAX_BYTES
    ensures R(s)
    ensures s == Reserved("stage", "hash", "actor", req).(
                   ch := Channels(true, false, None, OPEN), browser := Copy(0, []), browserWatcher := Watching)
  {
    s := Reserved("stage", "hash", "actor", req);
    s := SessionStep(s, Begin(true)).value;
    s := SessionStep(s, Arm).value;
    s := SessionStep(s, Start(true)).value;
    s := SessionStep(s, AdmitSize).value;
  }

  lemma StartOfCopy(req: Request, R: Session -> bool)
    requires Inductive(req, R) && 1 <= req.bytes <= MAX_BYTES
    ensures R(Midway(req, 0))
  {
    var s := BrowserStarts(req, R);
    s := SessionStep(s, Claim("hash")).value;
    s := SessionStep(s, SeeArmed).value;
    s := SessionStep(s, Prepare(true)).value;
    s := SessionStep(s, CheckRunner(None)).value;
    assert req.body.content[..0] == [] && req.body.content[0..0] == [];
    assert s == Midway(req, 0);
  }

  /** The previous block, if any, passes through the pipe to the runner's response. */
  lemma PassBlock(s: Session, R: Session -> bool, req: Request) returns (s': Session)
    requires Inductive(req, R) && R(s) && s.browser.Flush? && s.runner == Reading
    ensures R(s')
    ensures s' == s.(browser := Flush(s.browser.read, [], s.browser.next),
                     log := s.log.(sent := s.log.sent + s.browser.out, received := s.log.received + s.browser.out))
  {
    s' := s;
    var out := s.browser.out;
    if out == [] {
      assert s.log.sent + out == s.log.sent && s.log.received + out == s.log.received;
    } else {
      assert out[..|out|] == out && out[|out|..] == [];
      s' := SessionStep(s', Transfer(|out|)).value;
      s' := SessionStep(s', ResponseWrite(|out|, None)).value;
    }
  }

  lemma CopyOneBlock(req: Request, read: nat, R: Session -> bool)
    requires Inductive(req, R) && 1 <= req.bytes <= MAX_BYTES
    requires read % 32768 == 0 && read + 32768 <= |req.body.content| < req.bytes
    requires TailLength(read) <= read && TailLength(read + 32768) == 32768
    requires R(Midway(req, read))
    ensures R(Midway(req, read + 32768))
  {
    var content, t := req.body.content, TailLength(read);
    var s := SessionStep(Midway(req, read), ReadBlock).value;
    assert s.browser == Flush(read + 32768, content[read - t..read], content[read..read + 32768]);
    s := PassBlock(s, R, req);
    s := SessionStep(s, FlushDone).value;
    assert content[..read - t] + content[read - t..read] == content[..read];
    assert s == Midway(req, read + 32768);
  }

  lemma BlockBefore(read: nat)
    requires 0 < read && read % 32768 == 0
    ensures 32768 <= read && (read - 32768) % 32768 == 0 && TailLength(read) == 32768
  {
  }

  lemma {:induction false} CopyBlocks(req: Request, read: nat, R: Session -> bool)
    requires Inductive(req, R) && EndsBetweenBlocks(req)
    requires read % 32768 == 0 && read <= |req.body.content|
    ensures TailLength(read) <= read && R(Midway(req, read))
    decreases read
  {
    if read == 0 {
      StartOfCopy(req, R);
    } else {
      BlockBefore(read);
      var before := read - 32768;
      assert before + 32768 == read;
      CopyBlocks(req, before, R);
      CopyOneBlock(req, before, R);
    }
  }

  /** The failing browser has closed the writer with the copy's error, and not yet the reader. */
  lemma CloseWithEof(s: Session, R: Session -> bool, req: Request) returns (s': Session)
    requires Inductive(req, R) && R(s) && s.browser == Failing(FailOps(Eof)) && s.ch.pipe == OPEN
    ensures R(s') && s'.ch.pipe == Pipe(None, Some(Eof), true)
    ensures s'.req == s.req && s'.runner == s.runner && s'.log == s.log
  {
    s' := SessionStep(s, BrowserOp).value;
    s' := SessionStep(s', BrowserOp).value;
  }

  /** The body ends between blocks: the copy fails with `Eof`, and the runner may see that before its own end is closed. */
  lemma TruncatedCleanEnd(req: Request, R: Session -> bool) returns (s: Session)
    requires Inductive(req, R) && EndsBetweenBlocks(req)
    ensures R(s) && s.req == req && s.log.ended && |s.log.received| < req.bytes
  {
    var size := |req.body.content|;
    CopyBlocks(req, size, R);
    var m := Midway(req, size);
    s := SessionStep(m, ReadShort).value;
    assert s == m.(browser := Failing(FailOps(Eof)));
    s := CloseWithEof(s, R, req);
    s := SessionStep(s, ReadEnds).value;
  }

  ghost predicate EndsCleanlyShort(req: Request, steps: seq<Step>, i: nat) {
    && Run(steps).Some? && i < |Run(steps).value|
    && var s := Run(steps).value[i];
    && s.req == req && s.log.ended && !(Exact(req) && s.log.received == req.body.content)
  }

  /**
   A clean end of the runner's copy stands for the exact declared body, on every run, if and only if
   the body does not end cleanly between two blocks before its declared size.
   */
  lemma CleanEndIsExactIff(req: Request)
    ensures (forall steps, i :: !EndsCleanlyShort(req, steps, i)) <==> !EndsBetweenBlocks(req)
  {
    if EndsBetweenBlocks(req) {
      ReachableIsInductive(req);
      var s := TruncatedCleanEnd(req, s => Reachable(s));
      var steps :| Run(steps) == Some([s]);
      assert EndsCleanlyShort(req, steps, 0);
    } else {
      forall steps, i ensures !EndsCleanlyShort(req, steps, i) {
        if EndsCleanlyShort(req, steps, i) { CleanEndIsExactOrShort(steps, i); }
      }
    }
  }

  /** The copy on its own reports a plain end of input on exactly those requests. */
  lemma PlainEndIffBetweenBlocks(req: Request, room: nat)
    requires room >= |req.body.content|
    ensures var r := BlockCopy.UploadOutcome(req.bytes, MAX_BYTES, req.body.content, req.body.clean, room);
            r == BlockCopy.InputEnded(BlockCopy.Nothing) <==> EndsBetweenBlocks(req)
  {
  }

  // --- A complete upload ----------------------------------------------------------------------------------------

  const SAMPLE: Request := Request(1, Body([7], true))

  lemma SampleSent(R: Session -> bool) returns (s: Session)
    requires Inductive(SAMPLE, R)
    ensures R(s) && s.browser == Recheck && s.runner == Reading && s.ch == Channels(true, false, None, OPEN)
    ensures !s.browserWatcher.Cutting? && !s.runnerWatcher.Cutting?
  {
    StartOfCopy(SAMPLE, R);
    s := SessionStep(Midway(SAMPLE, 0), ReadBlock).value;
    assert s.browser == Flush(1, [], [7]);
    s := SessionStep(s, FlushDone).value;
    s := SessionStep(s, CheckEnd(false)).value;
    assert s.browser == Last([7]);
    s := SessionStep(s, Transfer(1)).value;
    assert s.browser == Last([]);
    s := SessionStep(s, ResponseWrite(1, None)).value;
    s := SessionStep(s, LastDone).value;
  }

  lemma SampleChecked(R: Session -> bool) returns (s: Session)
    requires Inductive(SAMPLE, R)
    ensures R(s) && s.browser == Finishing([OnPipe(Signal)]) && s.runner == Reading
    ensures s.ch == Channels(true, false, None, Pipe(None, Some(Eof), false))
    ensures !s.browserWatcher.Cutting? && !s.runnerWatcher.Cutting?
  {
    s := SampleSent(R);
    s := SessionStep(s, Reauthorize(None)).value;
    s := SessionStep(s, BrowserOp).value;
  }

  lemma SampleClosed(R: Session -> bool) returns (s: Session)
    requires Inductive(SAMPLE, R)
    ensures R(s) && s.browser == AwaitDone && s.runner == Joining(None) && s.ch.done == None
    ensures !s.browserWatcher.Cutting? && !s.runnerWatcher.Cutting?
  {
    s := SampleChecked(R);
    s := SessionStep(s, BrowserOp).value;
    s := SessionStep(s, BrowserOp).value;
    s := SessionStep(s, ReadEnds).value;
  }

  lemma SampleReported(R: Session -> bool) returns (s: Session)
    requires Inductive(SAMPLE, R)
    ensures R(s) && s.browser == AwaitDone && s.runner == Deferring([], None) && s.ch.done == None
  {
    s := SampleClosed(R);
    s := SessionStep(s, JoinRunnerWatcher).value;
    s := SessionStep(s, RunnerOp).value;
    s := SessionStep(s, RunnerOp).value;
  }

  lemma SampleAccepted(R: Session -> bool) returns (s: Session)
    requires Inductive(SAMPLE, R)
    ensures R(s) && s.log.accepted
  {
    s := SampleReported(R);
    s := SessionStep(s, SendDone).value;
    s := SessionStep(s, TakeDone).value;
  }

  /** An exact upload does reach its acceptance. */
  lemma AcceptedIsReachable() returns (s: Session)
    ensures Reachable(s) && s.log.accepted
  {
    ReachableIsInductive(SAMPLE);
    s := SampleAccepted(s => Reachable(s));
  }
}
