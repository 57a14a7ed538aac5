/**
 The import upload rendezvous as a labelled transition system. A browser handler reserves a session,
 arms it and copies its request body into the session's pipe; a runner handler claims the session and
 copies the pipe to its response. Both handlers run a watcher. Contexts and deadlines may end at any
 point, and every call outside the handlers may fail with any error other than `Eof`.
 */
module UploadProtocol {
  import opened Common
  import opened Pipes

  /** 10 << 30, the largest body the copy admits. */
  const MAX_BYTES: int := 10737418240

  /** A body yields `content` and then end of input if `clean`, or a read error otherwise. */
  datatype Body = Body(content: seq<byte>, clean: bool)

  datatype Request = Request(bytes: int, body: Body)

  datatype Op = OnPipe(op: PipeOp) | MarkFailed

  datatype Browser =
    | Beginning
    | Arming
    | Starting
    | CheckSize
    | Copy(read: nat, tail: seq<byte>)
    | Flush(read: nat, out: seq<byte>, next: seq<byte>)
    | Last(out: seq<byte>)
    | Recheck
    | Finishing(ops: seq<Op>)
    | AwaitDone
    | Failing(ops: seq<Op>)
    | Stopping
    | Removing
    | Cleaning(ops: seq<Op>)
    | Left

  datatype Runner =
    | Absent
    | AwaitArmed
    | Preparing
    | Checking
    | Reading
    | Writing(chunk: seq<byte>)
    | Joining(result: Option<Err>)
    | Deferring(ops: seq<Op>, result: Option<Err>)
    | Gone

  datatype Watcher = Off | Watching | Cutting(ops: seq<Op>) | Stopped

  datatype Entry = Entry(stage: string, hash: string, claimed: bool, present: bool)

  datatype Channels = Channels(armed: bool, failed: bool, done: Option<Option<Err>>, pipe: Pipe)

  /** History, read by no action. */
  datatype Log = Log(sent: seq<byte>, received: seq<byte>, recheckedAt: Option<nat>, ended: bool, accepted: bool, doneSends: nat)

  datatype Session = Session(
    actor: string,
    entry: Entry,
    req: Request,
    ch: Channels,
    browser: Browser,
    browserWatcher: Watcher,
    runner: Runner,
    runnerWatcher: Watcher,
    log: Log)

  datatype Action =
    | Begin(ok: bool)
    | Arm
    | Start(ok: bool)
    | AdmitSize
    | ReadBlock
    | ReadShort
    | ReadBreaks(e: Err)
    | FlushDone
    | CheckEnd(extra: bool)
    | LastDone
    | WriteFails
    | Reauthorize(failure: Option<Err>)
    | BrowserOp
    | TakeDone
    | GiveUp
    | JoinBrowserWatcher
    | Remove
    | Claim(hash: string)
    | SeeArmed
    | RunnerExpires
    | Prepare(ok: bool)
    | CheckRunner(failure: Option<Err>)
    | ResponseWrite(n: nat, failure: Option<Err>)
    | ReadEnds
    | JoinRunnerWatcher
    | RunnerOp
    | SendDone
    | BrowserCut(e: Err)
    | BrowserWatcherOp
    | RunnerCut(e: Err)
    | RunnerWatcherOp
    | Transfer(n: nat)

  function Reserved(stage: string, hash: string, actor: string, req: Request): (s: Session) {
    Session(actor, Entry(stage, hash, false, true), req, Channels(false, false, None, OPEN),
            Beginning, Off, Absent, Off, Log([], [], None, false, false, 0))
  }

  // --- Effects -----------------------------------------------------------------------------------

  function Perform(c: Channels, op: Op): (r: Channels) {
    match op
    case OnPipe(o) => c.(pipe := Apply(c.pipe, o))
    case MarkFailed => c.(failed := true)
  }

  function CloseWriter(e: Err): (ops: seq<Op>) {
    [OnPipe(StoreWrite(e)), OnPipe(Signal)]
  }

  function CloseReader(e: Err): (ops: seq<Op>) {
    [OnPipe(StoreRead(e)), OnPipe(Signal)]
  }

  /** The browser's `fail`, also run by its watcher: close the writer, then the reader. */
  function FailOps(e: Err): (ops: seq<Op>) {
    CloseWriter(e) + CloseReader(e)
  }

  function Fail(s: Session, e: Err): (r: Session) {
    s.(browser := Failing(FailOps(e)))
  }

  /** The runner's deferred report before it sends its result: mark a failure, close the reader. */
  function ReportOps(result: Option<Err>): (ops: seq<Op>) {
    (if result.Some? then [MarkFailed] else []) +
    CloseReader(if result.Some? then result.value else ClosedPipe)
  }

  // --- Actions -------------------------------------------------------------------------------------

  function OpeningAction(s: Session, a: Action): (r: Option<Session>) {
    match a
    case Begin(ok) =>
      if s.browser == Beginning then Some(s.(browser := if ok then Arming else Removing)) else None
    case Arm =>
      if s.browser == Arming then Some(s.(ch := s.ch.(armed := true), browser := Starting)) else None
    case Start(ok) =>
      if s.browser == Starting then
        Some(if ok then s.(browserWatcher := Watching, browser := CheckSize) else s.(browser := Removing))
      else None
    case AdmitSize =>
      if s.browser == CheckSize then
        Some(if 1 <= s.req.bytes <= MAX_BYTES then s.(browser := Copy(0, [])) else Fail(s, Conflict))
      else None
    case _ => None
  }

  /** The upload copy: the error of a short read is the reader's own, `Eof` when nothing was read. */
  function CopyAction(s: Session, a: Action): (r: Option<Session>) {
    var content, bytes := s.req.body.content, s.req.bytes;
    match a
    case ReadBlock =>
      if s.browser.Copy? && s.browser.read < bytes then
        var read := s.browser.read;
        var n := Min(BLOCK, bytes - read);
        if read + n <= |content|
        then Some(s.(browser := Flush(read + n, s.browser.tail, content[read..read + n])))
        else None
      else None
    case ReadShort =>
      if s.browser.Copy? && s.browser.read < bytes && s.req.body.clean &&
         s.browser.read + Min(BLOCK, bytes - s.browser.read) > |content|
      then Some(Fail(s, if s.browser.read == |content| then Eof else UnexpectedEof))
      else None
    case ReadBreaks(e) =>
      if s.browser.Copy? && s.browser.read < bytes && e != Eof then Some(Fail(s, e)) else None
    case FlushDone =>
      if s.browser.Flush? && s.browser.out == [] then Some(s.(browser := Copy(s.browser.read, s.browser.next))) else None
    case CheckEnd(extra) =>
      if s.browser.Copy? && s.browser.read == bytes then
        Some(if !extra && |content| == bytes && s.req.body.clean then s.(browser := Last(s.browser.tail)) else Fail(s, Conflict))
      else None
    case LastDone =>
      if s.browser.Last? && s.browser.out == [] then Some(s.(browser := Recheck)) else None
    case WriteFails =>
      if (s.browser.Flush? || s.browser.Last?) && s.browser.out != [] && s.ch.pipe.done
      then Some(Fail(s, WriteError(s.ch.pipe)))
      else None
    case Reauthorize(failure) =>
      if s.browser == Recheck && failure != Some(Eof) then
        Some(if failure.None?
             then s.(log := s.log.(recheckedAt := Some(|s.log.sent|)), browser := Finishing(CloseWriter(Eof)))
             else Fail(s, failure.value))
      else None
    case _ => None
  }

  function ClosingAction(s: Session, a: Action): (r: Option<Session>) {
    match a
    case BrowserOp =>
      match s.browser {
        case Finishing(ops) =>
          Some(if ops == [] then s.(browser := AwaitDone)
               else s.(ch := Perform(s.ch, ops[0]), browser := Finishing(ops[1..])))
        case Failing(ops) =>
          Some(if ops == [] then s.(browser := Stopping)
               else s.(ch := Perform(s.ch, ops[0]), browser := Failing(ops[1..])))
        case Cleaning(ops) =>
          Some(if ops == [] then s.(browser := Left)
               else s.(ch := Perform(s.ch, ops[0]), browser := Cleaning(ops[1..])))
        case _ => None
      }
    case TakeDone =>
      if s.browser == AwaitDone && s.ch.done.Some? then
        Some(s.(ch := s.ch.(done := None), log := s.log.(accepted := s.ch.done.value.None?), browser := Stopping))
      else None
    case GiveUp =>
      if s.browser == AwaitDone then Some(s.(browser := Stopping)) else None
    case JoinBrowserWatcher =>
      if s.browser == Stopping && (s.browserWatcher.Cutting? ==> s.browserWatcher.ops == []) then
        Some(s.(browserWatcher := Stopped, browser := Removing))
      else None
    case Remove =>
      if s.browser == Removing then
        Some(s.(entry := s.entry.(present := false),
                browser := Cleaning(CloseReader(Canceled) + CloseWriter(Canceled))))
      else None
    case _ => None
  }

  function Defer(s: Session, result: Option<Err>): (r: Session) {
    s.(runner := Deferring(ReportOps(result), result))
  }

  function RunnerAction(s: Session, a: Action): (r: Option<Session>) {
    match a
    case Claim(hash) =>
      if s.entry.present && !s.entry.claimed && s.entry.hash == hash then
        Some(s.(entry := s.entry.(claimed := true), runner := AwaitArmed))
      else None
    case SeeArmed =>
      if s.runner == AwaitArmed && s.ch.armed then Some(s.(runner := Preparing)) else None
    case RunnerExpires =>
      if s.runner == AwaitArmed then Some(Defer(s, Some(Canceled))) else None
    case Prepare(ok) =>
      if s.runner == Preparing then
        Some(if ok then s.(runnerWatcher := Watching, runner := Checking)
             else Defer(s, Some(Conflict)))
      else None
    case CheckRunner(failure) =>
      if s.runner == Checking && failure != Some(Eof) then
        Some(s.(runner := if failure.None? then Reading else Joining(failure)))
      else None
    case ResponseWrite(n, failure) =>
      if s.runner.Writing? && n <= |s.runner.chunk| && failure != Some(Eof) &&
         (failure.None? ==> n == |s.runner.chunk|)
      then
        Some(s.(log := s.log.(received := s.log.received + s.runner.chunk[..n]),
                runner := if failure.None? then Reading else Joining(failure)))
      else None
    case ReadEnds =>
      if s.runner == Reading && s.ch.pipe.done then
        var e := ReadError(s.ch.pipe);
        Some(if e == Eof then s.(log := s.log.(ended := true), runner := Joining(None))
             else s.(runner := Joining(Some(e))))
      else None
    case JoinRunnerWatcher =>
      if s.runner.Joining? && (s.runnerWatcher.Cutting? ==> s.runnerWatcher.ops == []) then
        Some(Defer(s.(runnerWatcher := Stopped), s.runner.result))
      else None
    case RunnerOp =>
      if s.runner.Deferring? && s.runner.ops != [] then
        Some(s.(ch := Perform(s.ch, s.runner.ops[0]), runner := Deferring(s.runner.ops[1..], s.runner.result)))
      else None
    case SendDone =>
      // A full channel would block the handler here.
      if s.runner.Deferring? && s.runner.ops == [] && s.ch.done.None? then
        Some(s.(ch := s.ch.(done := Some(s.runner.result)), runner := Gone,
                log := s.log.(doneSends := s.log.doneSends + 1)))
      else None
    case _ => None
  }

  function WatcherAction(s: Session, a: Action): (r: Option<Session>) {
    match a
    case BrowserCut(e) =>
      if s.browserWatcher == Watching && e != Eof then Some(s.(browserWatcher := Cutting(FailOps(e)))) else None
    case BrowserWatcherOp =>
      if s.browserWatcher.Cutting? && s.browserWatcher.ops != [] then
        Some(s.(ch := Perform(s.ch, s.browserWatcher.ops[0]), browserWatcher := Cutting(s.browserWatcher.ops[1..])))
      else None
    case RunnerCut(e) =>
      if s.runnerWatcher == Watching && e != Eof then
        Some(s.(runnerWatcher := Cutting([MarkFailed] + CloseReader(e))))
      else None
    case RunnerWatcherOp =>
      if s.runnerWatcher.Cutting? && s.runnerWatcher.ops != [] then
        Some(s.(ch := Perform(s.ch, s.runnerWatcher.ops[0]), runnerWatcher := Cutting(s.runnerWatcher.ops[1..])))
      else None
    case _ => None
  }

  /** A write and a read meet; a rendezvous that had started can still win against a close. */
  function TransferAction(s: Session, a: Action): (r: Option<Session>) {
    match a
    case Transfer(n) =>
      if s.runner == Reading && (s.browser.Flush? || s.browser.Last?) && 0 < n <= |s.browser.out| then
        var chunk, rest := s.browser.out[..n], s.browser.out[n..];
        Some(s.(log := s.log.(sent := s.log.sent + chunk), runner := Writing(chunk),
                browser := if s.browser.Flush? then Flush(s.browser.read, rest, s.browser.next) else Last(rest)))
      else None
    case _ => None
  }

  datatype Thread = BrowserOpening | BrowserCopying | BrowserClosing | RunnerThread | Watchers | Meeting

  function ThreadOf(a: Action): (t: Thread) {
    match a
    case Begin(_) | Arm | Start(_) | AdmitSize => BrowserOpening
    case ReadBlock | ReadShort | ReadBreaks(_) | FlushDone | CheckEnd(_) | LastDone | WriteFails | Reauthorize(_) => BrowserCopying
    case BrowserOp | TakeDone | GiveUp | JoinBrowserWatcher | Remove => BrowserClosing
    case BrowserCut(_) | BrowserWatcherOp | RunnerCut(_) | RunnerWatcherOp => Watchers
    case Transfer(_) => Meeting
    case _ => RunnerThread
  }

  function SessionStep(s: Session, a: Action): (r: Option<Session>) {
    match ThreadOf(a)
    case BrowserOpening => OpeningAction(s, a)
    case BrowserCopying => CopyAction(s, a)
    case BrowserClosing => ClosingAction(s, a)
    case RunnerThread => RunnerAction(s, a)
    case Watchers => WatcherAction(s, a)
    case Meeting => TransferAction(s, a)
  }

  // --- The whole system ------------------------------------------------------------------------------

  /** All sessions ever reserved, oldest first; those in the broker's map have `entry.present`. */
  type System = seq<Session>

  function Active(sys: System): (ids: set<nat>) {
    set i: nat | i < |sys| && sys[i].entry.present
  }

  predicate Admits(sys: System, stage: string, actor: string) {
    && |Active(sys)| < 2
    && (forall i :: 0 <= i < |sys| && sys[i].entry.present ==> sys[i].actor != actor && sys[i].entry.stage != stage)
  }

  datatype Step = Reserve(stage: string, hash: string, actor: string, req: Request) | Act(at: nat, action: Action)

  function Next(sys: System, step: Step): (r: Option<System>) {
    match step
    case Reserve(stage, hash, actor, req) =>
      if Admits(sys, stage, actor) then Some(sys + [Reserved(stage, hash, actor, req)]) else None
    case Act(at, action) =>
      if at >= |sys| then None else
      match SessionStep(sys[at], action)
      case None => None
      case Some(s) => Some(sys[at := s])
  }

  function Run(steps: seq<Step>): (r: Option<System>)
    decreases |steps|
  {
    if steps == [] then Some([]) else
    match Run(steps[..|steps| - 1])
    case None => None
    case Some(sys) => Next(sys, steps[|steps| - 1])
  }
}
