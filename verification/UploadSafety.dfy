/** Safety of the upload rendezvous over every interleaving, and exactly when a clean end is a whole body. */
module UploadSafety {
  import opened Common
  import opened Pipes
  import opened UploadProtocol

  // --- Where a clean end may come from ---------------------------------------------------------------

  ghost predicate SizeOk(req: Request) {
    1 <= req.bytes <= MAX_BYTES
  }

  /** The body ends cleanly between two blocks and before its declared size. */
  predicate EndsBetweenBlocks(req: Request) {
    && 1 <= req.bytes <= MAX_BYTES
    && req.body.clean
    && |req.body.content| < req.bytes
    && |req.body.content| % 32768 == 0
  }

  /** Everything declared was there, and nothing more. */
  ghost predicate Exact(req: Request) {
    && SizeOk(req)
    && req.body.clean
    && |req.body.content| == req.bytes
  }

  /** The pipe took the whole exact body and authority was checked again after its last byte. */
  ghost predicate SentExactly(req: Request, log: Log) {
    && Exact(req)
    && log.sent == req.body.content
    && log.recheckedAt == Some(|req.body.content|)
  }

  /** The pipe took everything but the last complete block of a body that ended between blocks. */
  ghost predicate SentShort(req: Request, log: Log) {
    && EndsBetweenBlocks(req)
    && TailLength(|req.body.content|) <= |req.body.content|
    && log.sent == req.body.content[..|req.body.content| - TailLength(|req.body.content|)]
  }

  ghost predicate EofJustified(req: Request, log: Log) {
    SentExactly(req, log) || SentShort(req, log)
  }

  // --- The session invariant -----------------------------------------------------------------------------

  ghost predicate BeforeArm(b: Browser) {
    b.Beginning? || b.Arming?
  }

  ghost predicate Copying(b: Browser) {
    b.Copy? || b.Flush? || b.Last? || b.Recheck?
  }

  /** The copy has ended one way or another: no more bytes will enter the pipe. */
  ghost predicate PastCopy(b: Browser) {
    b.Finishing? || b.AwaitDone? || b.Failing? || b.Stopping? || b.Removing? || b.Cleaning? || b.Left?
  }

  ghost function Carried(b: Browser): seq<byte> {
    match b
    case Copy(_, tail) => tail
    case Flush(_, out, next) => out + next
    case Last(out) => out
    case _ => []
  }

  ghost function ReadTo(b: Browser, content: seq<byte>): nat {
    match b
    case Copy(read, _) => read
    case Flush(read, _, _) => read
    case _ => |content|
  }

  ghost predicate NoEof(ops: seq<Op>) {
    OnPipe(StoreWrite(Eof)) !in ops && OnPipe(StoreRead(Eof)) !in ops
  }

  ghost predicate SendPart(req: Request, b: Browser, sent: seq<byte>) {
    && sent <= req.body.content
    && (Copying(b) ==>
          && SizeOk(req)
          && ReadTo(b, req.body.content) <= |req.body.content|
          && sent + Carried(b) == req.body.content[..ReadTo(b, req.body.content)])
    && (b.Copy? ==> AtBoundary(b.read, req.bytes) && |b.tail| == TailLength(b.read))
    && (b.Flush? ==> AtBoundary(b.read, req.bytes) && |b.next| == TailLength(b.read))
    && (b.Last? || b.Recheck? ==> Exact(req))
  }

  ghost predicate EofPart(req: Request, b: Browser, bw: Watcher, rw: Watcher, r: Runner, pipe: Pipe, log: Log) {
    && (b.Finishing? || b.AwaitDone? ==> SentExactly(req, log))
    && (b.Failing? && !NoEof(b.ops) ==> EofJustified(req, log))
    && (b.Cleaning? ==> NoEof(b.ops))
    && (bw.Cutting? ==> NoEof(bw.ops))
    && (rw.Cutting? ==> NoEof(rw.ops))
    && (r.Deferring? ==> NoEof(r.ops))
    && (r.Joining? ==> r.result != Some(Eof))
    && (pipe.werr == Some(Eof) || pipe.rerr == Some(Eof) ==> PastCopy(b) && EofJustified(req, log))
  }

  ghost function InHand(r: Runner): seq<byte> {
    if r.Writing? then r.chunk else []
  }

  ghost predicate ReceivePart(req: Request, b: Browser, r: Runner, log: Log) {
    && log.received <= log.sent
    && (r.Reading? || r.Writing? ==> log.received + InHand(r) == log.sent)
    && (r.Absent? || r.AwaitArmed? || r.Preparing? || r.Checking? ==> log.sent == [])
    && (log.ended ==> PastCopy(b) && log.received == log.sent && EofJustified(req, log))
    && (log.ended ==> r.Joining? || r.Deferring? || r.Gone?)
    && (r.Joining? && r.result.None? ==> log.ended)
  }

  ghost predicate ArmPart(armed: bool, b: Browser, r: Runner, sent: seq<byte>) {
    && (Copying(b) || b.CheckSize? || b.Starting? ==> armed)
    && (r.Preparing? || r.Checking? || r.Reading? || r.Writing? ==> armed)
    && (sent != [] ==> armed)
    && (BeforeArm(b) || b.CheckSize? || b.Starting? ==> sent == [])
  }

  /** One value is sent on `done`, by the one claimer, and it reports how the copy ended. */
  ghost predicate DonePart(claimed: bool, done: Option<Option<Err>>, r: Runner, log: Log) {
    && (claimed <==> !r.Absent?)
    && log.doneSends == (if r.Gone? then 1 else 0)
    && (done.Some? ==> r.Gone?)
    && (r.Deferring? && r.result.None? ==> log.ended)
    && (done == Some(None) ==> log.ended)
    && (log.accepted ==> r.Gone?)
  }

  ghost predicate AcceptPart(req: Request, b: Browser, log: Log) {
    && (log.accepted ==> SentExactly(req, log) && log.ended)
    && (log.accepted ==> b.Stopping? || b.Removing? || b.Cleaning? || b.Left?)
  }

  ghost predicate SessionInv(s: Session) {
    && SendPart(s.req, s.browser, s.log.sent)
    && EofPart(s.req, s.browser, s.browserWatcher, s.runnerWatcher, s.runner, s.ch.pipe, s.log)
    && ReceivePart(s.req, s.browser, s.runner, s.log)
    && ArmPart(s.ch.armed, s.browser, s.runner, s.log.sent)
    && DonePart(s.entry.claimed, s.ch.done, s.runner, s.log)
    && AcceptPart(s.req, s.browser, s.log)
    && (s.entry.present == (!s.browser.Cleaning? && !s.browser.Left?))
  }

  // --- Each thread keeps it --------------------------------------------------------------------------------

  /** A queue without a clean end brings none about, and neither does what is left of it. */
  lemma PerformKeeps(ch: Channels, ops: seq<Op>)
    requires ops != []
    ensures NoEof(ops) ==> NoEof(ops[1..])
    ensures NoEof(ops) ==> Perform(ch, ops[0]).pipe.werr == Some(Eof) ==> ch.pipe.werr == Some(Eof)
    ensures NoEof(ops) ==> Perform(ch, ops[0]).pipe.rerr == Some(Eof) ==> ch.pipe.rerr == Some(Eof)
    ensures Perform(ch, ops[0]).armed == ch.armed && Perform(ch, ops[0]).done == ch.done
  {
  }

  lemma BeginKeeps(s: Session, a: Action)
    requires (a.Begin? || a.Arm?) && SessionInv(s) && OpeningAction(s, a).Some?
    ensures SessionInv(OpeningAction(s, a).value)
  {
  }

  lemma StartKeeps(s: Session, a: Action)
    requires a.Start? && SessionInv(s) && OpeningAction(s, a).Some?
    ensures SessionInv(OpeningAction(s, a).value)
  {
  }

  lemma AdmitSizeKeeps(s: Session)
    requires SessionInv(s) && OpeningAction(s, AdmitSize).Some?
    ensures SessionInv(OpeningAction(s, AdmitSize).value)
  {
    if SizeOk(s.req) {
      assert s.log.sent + [] == s.req.body.content[..0];
    } else {
      FailKeeps(s, Conflict);
    }
  }

  lemma OpeningKeeps(s: Session, a: Action)
    requires ThreadOf(a) == BrowserOpening
    requires SessionInv(s) && OpeningAction(s, a).Some?
    ensures SessionInv(OpeningAction(s, a).value)
  {
    match a
    case Start(_) => StartKeeps(s, a);
    case AdmitSize => AdmitSizeKeeps(s);
    case _ => BeginKeeps(s, a);
  }

  /** Giving up with any error keeps the invariant, provided an `Eof` would be justified. */
  lemma FailKeeps(s: Session, e: Err)
    requires SessionInv(s) && (Copying(s.browser) || s.browser.CheckSize?)
    requires e == Eof ==> EofJustified(s.req, s.log)
    ensures SessionInv(Fail(s, e))
  {
  }

  lemma ReadBlockKeeps(s: Session)
    requires SessionInv(s) && CopyAction(s, ReadBlock).Some?
    ensures SessionInv(CopyAction(s, ReadBlock).value)
  {
    var read, bytes, content := s.browser.read, s.req.bytes, s.req.body.content;
    var n, after := Min(BLOCK, bytes - read), CopyAction(s, ReadBlock).value;
    NextBoundary(read, bytes);
    ReadExtends(content, s.log.sent, s.browser.tail, read, n);
    assert after == s.(browser := Flush(read + n, s.browser.tail, content[read..read + n]));
    assert after.req == s.req && after.log == s.log;
  }

  /** A clean end before the next block leaves exactly the last complete block behind. */
  lemma EndBetweenBlocksIsShort(s: Session)
    requires SessionInv(s) && s.browser.Copy? && s.browser.read < s.req.bytes && s.req.body.clean
    requires s.browser.read == |s.req.body.content|
    ensures SentShort(s.req, s.log)
  {
    var content := s.req.body.content;
    ReleasedStaysBelow(|content|, s.req.bytes);
    assert content[..|content|] == content;
    assert |s.log.sent| == |content| - TailLength(|content|);
  }

  lemma AdvanceKeeps(s: Session, a: Action)
    requires a.FlushDone? || a.LastDone?
    requires SessionInv(s) && CopyAction(s, a).Some?
    ensures SessionInv(CopyAction(s, a).value)
  {
    if a.FlushDone? { assert [] + s.browser.next == s.browser.next; }
  }

  lemma CheckEndKeeps(s: Session, a: Action)
    requires a.CheckEnd? && SessionInv(s) && CopyAction(s, a).Some?
    ensures SessionInv(CopyAction(s, a).value)
  {
    FailKeeps(s, Conflict);
  }

  lemma ReauthorizeKeeps(s: Session, a: Action)
    requires a.Reauthorize? && SessionInv(s) && CopyAction(s, a).Some?
    ensures SessionInv(CopyAction(s, a).value)
  {
    if a.failure.Some? {
      FailKeeps(s, a.failure.value);
    } else {
      assert s.log.sent == s.req.body.content by { assert s.log.sent + [] == s.log.sent; }
    }
  }

  lemma CopyKeeps(s: Session, a: Action)
    requires ThreadOf(a) == BrowserCopying
    requires SessionInv(s) && CopyAction(s, a).Some?
    ensures SessionInv(CopyAction(s, a).value)
  {
    match a
    case ReadBlock => ReadBlockKeeps(s);
    case ReadShort =>
      if s.browser.read == |s.req.body.content| {
        EndBetweenBlocksIsShort(s);
        FailKeeps(s, Eof);
      } else {
        FailKeeps(s, UnexpectedEof);
      }
    case ReadBreaks(e) => FailKeeps(s, e);
    case WriteFails => FailKeeps(s, WriteError(s.ch.pipe));
    case CheckEnd(_) => CheckEndKeeps(s, a);
    case Reauthorize(_) => ReauthorizeKeeps(s, a);
    case _ => AdvanceKeeps(s, a);
  }

  lemma FinishingOpKeeps(s: Session)
    requires s.browser.Finishing? && SessionInv(s)
    ensures SessionInv(ClosingAction(s, BrowserOp).value)
  {
  }

  lemma FailingOpKeeps(s: Session)
    requires s.browser.Failing? && SessionInv(s)
    ensures SessionInv(ClosingAction(s, BrowserOp).value)
  {
    if s.browser.ops != [] { PerformKeeps(s.ch, s.browser.ops); }
  }

  lemma CleaningOpKeeps(s: Session)
    requires s.browser.Cleaning? && SessionInv(s)
    ensures SessionInv(ClosingAction(s, BrowserOp).value)
  {
    if s.browser.ops != [] { PerformKeeps(s.ch, s.browser.ops); }
  }

  lemma TakeDoneKeeps(s: Session)
    requires SessionInv(s) && ClosingAction(s, TakeDone).Some?
    ensures SessionInv(ClosingAction(s, TakeDone).value)
  {
  }

  lemma LeaveKeeps(s: Session, a: Action)
    requires (a.GiveUp? || a.JoinBrowserWatcher? || a.Remove?) && SessionInv(s) && ClosingAction(s, a).Some?
    ensures SessionInv(ClosingAction(s, a).value)
  {
  }

  lemma ClosingKeeps(s: Session, a: Action)
    requires ThreadOf(a) == BrowserClosing
    requires SessionInv(s) && ClosingAction(s, a).Some?
    ensures SessionInv(ClosingAction(s, a).value)
  {
    if a.TakeDone? {
      TakeDoneKeeps(s);
    } else if !a.BrowserOp? {
      LeaveKeeps(s, a);
    } else if s.browser.Finishing? {
      FinishingOpKeeps(s);
    } else if s.browser.Failing? {
      FailingOpKeeps(s);
    } else {
      CleaningOpKeeps(s);
    }
  }

  lemma ResponseWriteKeeps(s: Session, a: Action)
    requires a.ResponseWrite? && SessionInv(s) && RunnerAction(s, a).Some?
    ensures SessionInv(RunnerAction(s, a).value)
  {
    var chunk := s.runner.chunk;
    assert s.log.received + chunk[..a.n] + chunk[a.n..] == s.log.sent by {
      assert chunk[..a.n] + chunk[a.n..] == chunk;
    }
  }

  lemma ReadEndsKeeps(s: Session)
    requires SessionInv(s) && RunnerAction(s, ReadEnds).Some?
    ensures SessionInv(RunnerAction(s, ReadEnds).value)
  {
    assert s.log.received + [] == s.log.received;
  }

  lemma DeferKeeps(s: Session, a: Action)
    requires a.RunnerExpires? || a.Prepare? || a.JoinRunnerWatcher?
    requires SessionInv(s) && RunnerAction(s, a).Some?
    ensures SessionInv(RunnerAction(s, a).value)
  {
  }

  lemma ReportKeeps(s: Session, a: Action)
    requires (a.RunnerOp? || a.SendDone?) && SessionInv(s) && RunnerAction(s, a).Some?
    ensures SessionInv(RunnerAction(s, a).value)
  {
    if a.RunnerOp? { PerformKeeps(s.ch, s.runner.ops); }
  }

  lemma ArrivalKeeps(s: Session, a: Action)
    requires a.Claim? || a.SeeArmed? || a.CheckRunner?
    requires SessionInv(s) && RunnerAction(s, a).Some?
    ensures SessionInv(RunnerAction(s, a).value)
  {
    assert s.log.sent == [] ==> s.log.received + [] == s.log.sent;
  }

  lemma RunnerKeeps(s: Session, a: Action)
    requires ThreadOf(a) == RunnerThread
    requires SessionInv(s) && RunnerAction(s, a).Some?
    ensures SessionInv(RunnerAction(s, a).value)
  {
    match a
    case ResponseWrite(_, _) => ResponseWriteKeeps(s, a);
    case ReadEnds => ReadEndsKeeps(s);
    case Claim(_) => ArrivalKeeps(s, a);
    case SeeArmed => ArrivalKeeps(s, a);
    case CheckRunner(_) => ArrivalKeeps(s, a);
    case RunnerOp => ReportKeeps(s, a);
    case SendDone => ReportKeeps(s, a);
    case _ => DeferKeeps(s, a);
  }

  lemma CutKeeps(s: Session, a: Action)
    requires (a.BrowserCut? || a.RunnerCut?) && SessionInv(s) && WatcherAction(s, a).Some?
    ensures SessionInv(WatcherAction(s, a).value)
  {
  }

  lemma WatchersKeep(s: Session, a: Action)
    requires ThreadOf(a) == Watchers
    requires SessionInv(s) && WatcherAction(s, a).Some?
    ensures SessionInv(WatcherAction(s, a).value)
  {
    match a
    case BrowserWatcherOp => PerformKeeps(s.ch, s.browserWatcher.ops);
    case RunnerWatcherOp => PerformKeeps(s.ch, s.runnerWatcher.ops);
    case _ => CutKeeps(s, a);
  }

  lemma TransferConserves(b: Browser, b': Browser, sent: seq<byte>, n: nat)
    requires (b.Flush? || b.Last?) && 0 < n <= |b.out|
    requires b' == if b.Flush? then Flush(b.read, b.out[n..], b.next) else Last(b.out[n..])
    ensures (sent + b.out[..n]) + Carried(b') == sent + Carried(b)
  {
    PassExtends(sent, b.out, if b.Flush? then b.next else [], n);
  }

  lemma TransferKeeps(s: Session, a: Action)
    requires SessionInv(s) && TransferAction(s, a).Some?
    ensures SessionInv(TransferAction(s, a).value)
  {
    var s' := TransferAction(s, a).value;
    var content := s.req.body.content;
    TransferConserves(s.browser, s'.browser, s.log.sent, a.n);
    var k := ReadTo(s.browser, content);
    SentIsPrefix(content, s'.log.sent, Carried(s'.browser), k);
    assert ReceivePart(s'.req, s'.browser, s'.runner, s'.log);
  }

  lemma StepKeeps(s: Session, a: Action)
    requires SessionInv(s) && SessionStep(s, a).Some?
    ensures SessionInv(SessionStep(s, a).value)
  {
    match ThreadOf(a)
    case BrowserOpening => OpeningKeeps(s, a);
    case BrowserCopying => CopyKeeps(s, a);
    case BrowserClosing => ClosingKeeps(s, a);
    case RunnerThread => RunnerKeeps(s, a);
    case Watchers => WatchersKeep(s, a);
    case Meeting => TransferKeeps(s, a);
  }

  ghost predicate SameIdentity(s: Session, t: Session) {
    t.actor == s.actor && t.entry.stage == s.entry.stage && t.entry.hash == s.entry.hash && t.req == s.req
  }

  lemma CopyKeepsIdentity(s: Session, a: Action)
    requires CopyAction(s, a).Some?
    ensures var t := CopyAction(s, a).value; t.actor == s.actor && t.req == s.req && t.entry == s.entry
  {
  }

  lemma BrowserKeepsIdentity(s: Session, a: Action)
    requires ThreadOf(a) in {BrowserOpening, BrowserCopying, BrowserClosing} && SessionStep(s, a).Some?
    ensures var t := SessionStep(s, a).value;
            SameIdentity(s, t) && (t.entry.present ==> s.entry.present) && t.entry.claimed == s.entry.claimed
  {
    if ThreadOf(a) == BrowserCopying { CopyKeepsIdentity(s, a); }
  }

  lemma OthersKeepIdentity(s: Session, a: Action)
    requires ThreadOf(a) in {RunnerThread, Watchers, Meeting} && SessionStep(s, a).Some?
    ensures var t := SessionStep(s, a).value;
            && SameIdentity(s, t) && t.entry.present == s.entry.present
            && (s.entry.claimed ==> t.entry.claimed)
            && (t.entry.claimed != s.entry.claimed ==> a == Claim(s.entry.hash) && s.entry.present)
  {
  }

  /** A step leaves identity alone, never revives a removed session and never undoes a claim. */
  lemma StepKeepsIdentity(s: Session, a: Action)
    requires SessionStep(s, a).Some?
    ensures var t := SessionStep(s, a).value;
            && SameIdentity(s, t)
            && (t.entry.present ==> s.entry.present)
            && (s.entry.claimed ==> t.entry.claimed)
            && (t.entry.claimed != s.entry.claimed ==> a == Claim(s.entry.hash) && s.entry.present)
  {
    if ThreadOf(a) in {BrowserOpening, BrowserCopying, BrowserClosing} {
      BrowserKeepsIdentity(s, a);
    } else {
      OthersKeepIdentity(s, a);
    }
  }

  // --- Every reachable state ------------------------------------------------------------------------------------

  ghost predicate SystemInv(sys: System) {
    && |Active(sys)| <= 2
    && (forall i :: 0 <= i < |sys| ==> SessionInv(sys[i]))
    && (forall i, j :: 0 <= i < j < |sys| && sys[i].entry.present && sys[j].entry.present ==>
          sys[i].actor != sys[j].actor && sys[i].entry.stage != sys[j].entry.stage)
  }

  lemma ReservedInv(stage: string, hash: string, actor: string, req: Request)
    ensures SessionInv(Reserved(stage, hash, actor, req))
  {
  }

  lemma ActiveGrowsByOne(sys: System, s: Session)
    ensures |Active(sys + [s])| <= |Active(sys)| + 1
  {
    assert Active(sys + [s]) <= Active(sys) + {|sys|};
    SubsetSize(Active(sys + [s]), Active(sys) + {|sys|});
  }

  lemma ReserveKeeps(sys: System, step: Step)
    requires step.Reserve? && SystemInv(sys) && Next(sys, step).Some?
    ensures SystemInv(Next(sys, step).value)
  {
    var s := Reserved(step.stage, step.hash, step.actor, step.req);
    var sys' := sys + [s];
    ReservedInv(step.stage, step.hash, step.actor, step.req);
    ActiveGrowsByOne(sys, s);
    forall i, j | 0 <= i < j < |sys'| && sys'[i].entry.present && sys'[j].entry.present
      ensures sys'[i].actor != sys'[j].actor && sys'[i].entry.stage != sys'[j].entry.stage
    {
      assert sys'[i] == sys[i];
    }
  }

  lemma ActKeeps(sys: System, at: nat, a: Action)
    requires SystemInv(sys) && at < |sys| && SessionStep(sys[at], a).Some?
    ensures SystemInv(sys[at := SessionStep(sys[at], a).value])
  {
    StepKeeps(sys[at], a);
    StepKeepsIdentity(sys[at], a);
    var sys' := sys[at := SessionStep(sys[at], a).value];
    assert Active(sys') <= Active(sys);
    SubsetSize(Active(sys'), Active(sys));
  }

  lemma {:induction false} RunKeeps(steps: seq<Step>)
    requires Run(steps).Some?
    ensures SystemInv(Run(steps).value)
    decreases |steps|
  {
    if steps != [] {
      var before, last := steps[..|steps| - 1], steps[|steps| - 1];
      RunKeeps(before);
      match last
      case Reserve(_, _, _, _) => ReserveKeeps(Run(before).value, last);
      case Act(at, a) => ActKeeps(Run(before).value, at, a);
    }
  }

  // --- Main results -----------------------------------------------------------------------------------------------

  /** The broker holds at most two sessions, of different actors and different stages. */
  lemma BrokerSafety(steps: seq<Step>)
    requires Run(steps).Some?
    ensures var sys := Run(steps).value;
            && |Active(sys)| <= 2
            && forall i, j :: 0 <= i < j < |sys| && sys[i].entry.present && sys[j].entry.present ==>
                 sys[i].actor != sys[j].actor && sys[i].entry.stage != sys[j].entry.stage
  {
    RunKeeps(steps);
  }

  /**
   The browser's request is accepted only if the runner received exactly the declared body, the body
   was at its end, and authority was checked again after the last byte.
   */
  lemma AcceptedIsExact(steps: seq<Step>, i: nat)
    requires Run(steps).Some? && i < |Run(steps).value|
    ensures var s := Run(steps).value[i];
            s.log.accepted ==> SentExactly(s.req, s.log) && s.log.received == s.req.body.content
  {
    RunKeeps(steps);
    assert SessionInv(Run(steps).value[i]);
  }

  /** When the runner's copy ends cleanly it holds the exact body, or a body that ended between blocks less its last block. */
  lemma CleanEndIsExactOrShort(steps: seq<Step>, i: nat)
    requires Run(steps).Some? && i < |Run(steps).value|
    ensures var s := Run(steps).value[i];
            s.log.ended ==>
              && s.log.received == s.log.sent
              && (SentExactly(s.req, s.log) || SentShort(s.req, s.log))
  {
    RunKeeps(steps);
    assert SessionInv(Run(steps).value[i]);
  }

  /** No byte flows before the session is armed, and the bytes that flow are a prefix of the body. */
  lemma NothingBeforeArmed(steps: seq<Step>, i: nat)
    requires Run(steps).Some? && i < |Run(steps).value|
    ensures var s := Run(steps).value[i];
            && (!s.ch.armed ==> s.log.sent == [] && s.log.received == [])
            && s.log.received <= s.log.sent <= s.req.body.content
  {
    RunKeeps(steps);
    assert SessionInv(Run(steps).value[i]);
  }

  /** A claimed session sends exactly one value on `done`, and that send never finds the channel full. */
  lemma DoneSentOnce(steps: seq<Step>, i: nat)
    requires Run(steps).Some? && i < |Run(steps).value|
    ensures var s := Run(steps).value[i];
            && s.log.doneSends == (if s.runner.Gone? then 1 else 0)
            && (s.runner.Deferring? && s.runner.ops == [] ==> SessionStep(s, SendDone).Some?)
            && (s.runner.Gone? ==> s.entry.claimed)
  {
    RunKeeps(steps);
    var s := Run(steps).value[i];
    assert SessionInv(s);
    assert DonePart(s.entry.claimed, s.ch.done, s.runner, s.log);
  }
}
