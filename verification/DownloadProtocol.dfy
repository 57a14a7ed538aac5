/**
 The backup download rendezvous as a labelled transition system. A browser handler reserves a
 session, a runner handler claims it and streams an archive through the session's pipe, and a
 watcher thread may cut the stream at any moment. Every session ever reserved is one element of the
 system state; threads act in any order, one atomic action at a time, and every call into code
 outside the handlers may succeed or fail. `database` selects between the database and the storage
 variant of the handlers.
 */
module DownloadProtocol {
  import opened Common
  import opened Pipes

  datatype Plan = Plan(hash: string, bytes: nat, digest: string)

  /** What `ready` carries: `None` is the nil that starts the transfer. */
  type ReadyValue = Option<Err>

  /** One atomic effect of a thread that is running a fixed list of effects. */
  datatype Op = OnPipe(op: PipeOp) | SendReady(e: Err) | CancelSession

  datatype Answer = Receipt | ErrorStatus | EmptyOk

  /** What the runner's multipart request carries after its metadata. */
  datatype Stream = Unavailable | Archive(content: seq<byte>)

  datatype Browser =
    | Creating
    | Planned(p: Plan)
    | AwaitReady
    | CheckBrowser
    | FirstRead
    | Writing(chunk: seq<byte>)
    | Reading
    | Joining(copied: bool)
    | Closing(copied: bool)
    | Removing(flag: bool)
    | Cleaning(ops: seq<Op>)
    | Left

  datatype Runner =
    | Absent
    | Claimed
    | CheckFirst
    | OfferReady
    | Copy(read: nat, tail: seq<byte>)
    | Flush(read: nat, out: seq<byte>, next: seq<byte>)
    | Framing(tail: seq<byte>)
    | Recheck(tail: seq<byte>)
    | Last(out: seq<byte>)
    | StopWatching
    | Finishing(ops: seq<Op>)
    | AwaitDone
    | Failing(ops: seq<Op>, answer: Answer)
    | Answered
    | Returned

  datatype Watcher = Off | Watching | Cutting(ops: seq<Op>) | Stopped

  datatype Interrupter = Disarmed | Armed | Firing(ops: seq<Op>)

  /** The fields a broker reads and writes under its mutex; `present` says the map holds the session. */
  datatype Entry = Entry(plan: Option<Plan>, claimed: bool, success: bool, present: bool, doneCloses: nat)

  /** The session context, the capacity-one `ready` channel and the pipe. */
  datatype Channels = Channels(canceled: bool, ready: Option<ReadyValue>, pipe: Pipe)

  /** History, read by no action: bytes through the pipe and to the client, verdicts and the answer. */
  datatype Log = Log(
    sent: seq<byte>,
    delivered: seq<byte>,
    framed: bool,
    recheckedAt: Option<nat>,
    copied: bool,
    closeOk: bool,
    answer: Option<Answer>)

  datatype Session = Session(
    id: string,
    actor: string,
    entry: Entry,
    ch: Channels,
    row: Option<Plan>,
    browser: Browser,
    interrupter: Interrupter,
    runner: Runner,
    watcher: Watcher,
    stream: Stream,
    log: Log)

  datatype Action =
    // Browser handler.
    | Create(p: Plan)
    | CreateFails(stored: Option<Plan>)
    | SetPlan(deadline: bool)
    | TakeReady
    | GiveUpWaiting
    | BrowserChecked(ok: bool)
    | ClientWrite(n: nat, ok: bool)
    | ReadEnds
    | JoinInterrupter
    | DurableClose(ok: bool)
    | Remove
    | BrowserOp
    // Interrupter armed by the database browser handler.
    | Interrupt
    | InterrupterOp
    // Runner handler.
    | Claim(hash: string, stream: Stream)
    | OpenPart(ok: bool)
    | ReportUnavailable(noPart: bool, checked: bool, e: Err)
    | FirstCheck(failure: Option<Err>)
    | Offer
    | ReadBlock
    | ReadFails
    | FlushDone
    | CheckWhole(extra: bool)
    | CheckFraming(ok: bool)
    | CheckAuthority(failure: Option<Err>)
    | LastDone
    | WriteFails
    | JoinWatcher
    | RunnerOp
    | SeeDone
    | Expire
    | Return
    // Watcher thread.
    | Cut(e: Err)
    | WatcherOp
    // Both handlers meet in the pipe.
    | Transfer(n: nat)
    // The session context may end at any time.
    | ContextEnds

  function Reserved(id: string, actor: string): (s: Session) {
    Session(id, actor, Entry(None, false, false, true, 0), Channels(false, None, OPEN), None,
            Creating, Disarmed, Absent, Off, Unavailable, Log([], [], false, None, false, false, None))
  }

  // --- Effects ---------------------------------------------------------------------------------

  function Perform(c: Channels, op: Op): (r: Channels) {
    match op
    case OnPipe(o) => c.(pipe := Apply(c.pipe, o))
    case SendReady(e) => if c.ready.None? then c.(ready := Some(Some(e))) else c
    case CancelSession => c.(canceled := true)
  }

  function CloseWriter(e: Err): (ops: seq<Op>) {
    [OnPipe(StoreWrite(e)), OnPipe(Signal)]
  }

  function CloseReader(e: Err): (ops: seq<Op>) {
    [OnPipe(StoreRead(e)), OnPipe(Signal)]
  }

  /** The runner's `fail`: offer the error, close the writer, and (database) cancel the session. */
  function FailOps(database: bool, e: Err): (ops: seq<Op>) {
    [SendReady(e)] + CloseWriter(e) + (if database && e != NotFound then [CancelSession] else [])
  }

  /** What the watcher does when it gives up. */
  function CutOps(database: bool, e: Err): (ops: seq<Op>) {
    FailOps(database, e) + (if database then CloseReader(e) + CloseWriter(e) else [])
  }

  const REMOVE_OPS: seq<Op> := [CancelSession] + CloseReader(Canceled) + CloseWriter(Canceled)

  function Fail(database: bool, s: Session, e: Err, answer: Answer): (r: Session) {
    s.(runner := Failing(FailOps(database, e), answer))
  }

  function Answering(s: Session, answer: Answer): (r: Session) {
    s.(log := s.log.(answer := Some(answer)), runner := Answered)
  }

  // --- Actions ---------------------------------------------------------------------------------

  function BrowserAction(database: bool, s: Session, a: Action): (r: Option<Session>) {
    match a
    case Create(p) =>
      if s.browser == Creating && p.bytes >= 1 then Some(s.(row := Some(p), browser := Planned(p))) else None
    case CreateFails(stored) =>
      if s.browser == Creating then Some(s.(row := stored, browser := Joining(false))) else None
    case SetPlan(deadline) =>
      if s.browser.Planned? then
        Some(s.(entry := s.entry.(plan := Some(s.browser.p)),
                interrupter := if database && deadline then Armed else s.interrupter,
                browser := if deadline then AwaitReady else Joining(false)))
      else None
    case TakeReady =>
      if s.browser == AwaitReady && s.ch.ready.Some? then
        Some(s.(ch := s.ch.(ready := None),
                browser := if s.ch.ready.value.None? then CheckBrowser else Joining(false)))
      else None
    case GiveUpWaiting =>
      if s.browser == AwaitReady then Some(s.(browser := Joining(false))) else None
    case BrowserChecked(ok) =>
      if s.browser == CheckBrowser then Some(s.(browser := if ok then FirstRead else Joining(false))) else None
    case ClientWrite(n, ok) =>
      if s.browser.Writing? && n <= |s.browser.chunk| && (ok ==> n == |s.browser.chunk|) then
        Some(s.(log := s.log.(delivered := s.log.delivered + s.browser.chunk[..n]),
                browser := if ok then Reading else Joining(false)))
      else None
    case ReadEnds =>
      if s.browser == FirstRead && s.ch.pipe.done then
        Some(s.(browser := if ReadError(s.ch.pipe) == Eof then Reading else Joining(false)))
      else if s.browser == Reading && s.ch.pipe.done && s.entry.plan.Some? then
        var ok := ReadError(s.ch.pipe) == Eof && |s.log.delivered| == s.entry.plan.value.bytes;
        Some(s.(log := s.log.(copied := ok), browser := Joining(ok)))
      else None
    case JoinInterrupter =>
      if s.browser.Joining? && (s.interrupter.Firing? ==> s.interrupter.ops == []) then
        Some(s.(interrupter := Disarmed, browser := Closing(s.browser.copied)))
      else None
    case DurableClose(ok) =>
      if s.browser.Closing? then
        Some(s.(log := s.log.(closeOk := ok), browser := Removing(s.browser.copied && (database ==> ok))))
      else None
    case Remove =>
      if s.browser.Removing? then
        Some(if s.entry.present
             then s.(entry := s.entry.(present := false, success := s.browser.flag,
                                       doneCloses := s.entry.doneCloses + 1),
                     browser := Cleaning(REMOVE_OPS))
             else s.(browser := Left))
      else None
    case BrowserOp =>
      if s.browser.Cleaning? then
        Some(if s.browser.ops == [] then s.(browser := Left)
             else s.(ch := Perform(s.ch, s.browser.ops[0]), browser := Cleaning(s.browser.ops[1..])))
      else None
    case _ => None
  }

  function InterrupterAction(s: Session, a: Action): (r: Option<Session>) {
    match a
    case Interrupt =>
      if s.interrupter == Armed && s.ch.canceled then Some(s.(interrupter := Firing(CloseReader(Canceled)))) else None
    case InterrupterOp =>
      if s.interrupter.Firing? && s.interrupter.ops != [] then
        Some(s.(ch := Perform(s.ch, s.interrupter.ops[0]), interrupter := Firing(s.interrupter.ops[1..])))
      else None
    case _ => None
  }

  /** Requests before the stream is offered: claim, the failure report, the part and its first check. */
  function OpeningAction(database: bool, s: Session, a: Action): (r: Option<Session>) {
    match a
    case Claim(hash, stream) =>
      // The durable begin returned the stored row under `hash`; the broker then admits one claimer.
      if s.entry.present && !s.entry.claimed && s.entry.plan.Some? && s.entry.plan.value.hash == hash &&
         !s.ch.canceled && s.row.Some? && s.row.value.hash == hash
      then Some(s.(entry := s.entry.(claimed := true), runner := Claimed, stream := stream,
                   watcher := if database then Watching else Off))
      else None
    case ReportUnavailable(noPart, checked, e) =>
      if s.runner == Claimed && s.stream.Unavailable? then
        Some(if !noPart then Fail(database, s, Conflict, ErrorStatus)
             else if !checked then Fail(database, s, e, ErrorStatus)
             else Fail(database, s, NotFound, Receipt))
      else None
    case OpenPart(ok) =>
      if s.runner == Claimed && s.stream.Archive? then
        Some(if ok then s.(runner := CheckFirst, watcher := if s.watcher.Off? then Watching else s.watcher)
             else Fail(database, s, Conflict, ErrorStatus))
      else None
    case FirstCheck(failure) =>
      if s.runner == CheckFirst then
        Some(if failure.None? then s.(runner := OfferReady) else Fail(database, s, failure.value, ErrorStatus))
      else None
    case Offer =>
      if s.runner == OfferReady then
        Some(if s.ch.ready.None? then s.(ch := s.ch.(ready := Some(None)), runner := Copy(0, []))
             // Nothing is written to the response, which the server then sends as an empty 200.
             else Answering(s, EmptyOk))
      else None
    case _ => None
  }

  /** The verified copy: read a block, release the previous one, and hold the last one back. */
  function CopyAction(digest: seq<byte> -> string, database: bool, s: Session, a: Action): (r: Option<Session>) {
    if s.stream.Unavailable? || s.row.None? then None else
    var archive, plan := s.stream.content, s.row.value;
    match a
    case ReadBlock =>
      if s.runner.Copy? && s.runner.read < plan.bytes then
        var n := Min(BLOCK, plan.bytes - s.runner.read);
        if s.runner.read + n <= |archive| then
          Some(s.(runner := Flush(s.runner.read + n, s.runner.tail, archive[s.runner.read..s.runner.read + n])))
        else None
      else None
    case ReadFails =>
      if s.runner.Copy? && s.runner.read < plan.bytes then Some(Fail(database, s, Conflict, ErrorStatus)) else None
    case FlushDone =>
      if s.runner.Flush? && s.runner.out == [] then Some(s.(runner := Copy(s.runner.read, s.runner.next))) else None
    case CheckWhole(extra) =>
      if s.runner.Copy? && s.runner.read == plan.bytes then
        Some(if !extra && |archive| == plan.bytes && digest(archive) == plan.digest
             then s.(runner := Framing(s.runner.tail))
             else Fail(database, s, Conflict, ErrorStatus))
      else None
    case CheckFraming(ok) =>
      if s.runner.Framing? then
        Some(if ok then s.(log := s.log.(framed := true), runner := Recheck(s.runner.tail))
             else Fail(database, s, Conflict, ErrorStatus))
      else None
    case CheckAuthority(failure) =>
      if s.runner.Recheck? then
        Some(if failure.None?
             then s.(log := s.log.(recheckedAt := Some(|s.log.sent|)), runner := Last(s.runner.tail))
             else Fail(database, s, failure.value, ErrorStatus))
      else None
    case LastDone =>
      if s.runner.Last? && s.runner.out == [] then Some(s.(runner := StopWatching)) else None
    case WriteFails =>
      if (s.runner.Flush? || s.runner.Last?) && s.runner.out != [] && s.ch.pipe.done
      then Some(Fail(database, s, WriteError(s.ch.pipe), ErrorStatus))
      else None
    case _ => None
  }

  function FinishAction(s: Session, a: Action): (r: Option<Session>) {
    match a
    case JoinWatcher =>
      if s.runner == StopWatching && (s.watcher.Cutting? ==> s.watcher.ops == []) then
        Some(s.(watcher := Stopped, runner := Finishing(CloseWriter(Eof))))
      else None
    case RunnerOp =>
      if s.runner.Finishing? then
        Some(if s.runner.ops == [] then s.(runner := AwaitDone)
             else s.(ch := Perform(s.ch, s.runner.ops[0]), runner := Finishing(s.runner.ops[1..])))
      else if s.runner.Failing? then
        Some(if s.runner.ops == [] then Answering(s, s.runner.answer)
             else s.(ch := Perform(s.ch, s.runner.ops[0]), runner := Failing(s.runner.ops[1..], s.runner.answer)))
      else None
    case SeeDone =>
      if s.runner == AwaitDone && s.entry.doneCloses > 0
      then Some(Answering(s, if s.entry.success then Receipt else ErrorStatus))
      else None
    case Expire =>
      if s.runner == AwaitDone then Some(Answering(s, ErrorStatus)) else None
    case Return =>
      if s.runner == Answered && (s.watcher.Cutting? ==> s.watcher.ops == []) then
        Some(s.(watcher := Stopped, runner := Returned))
      else None
    case _ => None
  }

  function WatcherAction(database: bool, s: Session, a: Action): (r: Option<Session>) {
    match a
    case Cut(e) =>
      if s.watcher == Watching then Some(s.(watcher := Cutting(CutOps(database, e)))) else None
    case WatcherOp =>
      if s.watcher.Cutting? && s.watcher.ops != [] then
        Some(s.(ch := Perform(s.ch, s.watcher.ops[0]), watcher := Cutting(s.watcher.ops[1..])))
      else None
    case _ => None
  }

  /**
   A write and a read meet and move `n` bytes. A rendezvous that had started can still win against a
   close, so the action does not look at the pipe's signal.
   */
  function TransferAction(s: Session, a: Action): (r: Option<Session>) {
    match a
    case Transfer(n) =>
      if (s.browser == FirstRead || s.browser == Reading) && (s.runner.Flush? || s.runner.Last?) &&
         0 < n <= |s.runner.out|
      then
        var chunk, rest := s.runner.out[..n], s.runner.out[n..];
        Some(s.(log := s.log.(sent := s.log.sent + chunk), browser := Writing(chunk),
                runner := if s.runner.Flush? then Flush(s.runner.read, rest, s.runner.next) else Last(rest)))
      else None
    case ContextEnds => Some(s.(ch := s.ch.(canceled := true)))
    case _ => None
  }

  datatype Thread = BrowserThread | InterrupterThread | RunnerOpening | RunnerCopying | RunnerFinishing | WatcherThread | Meeting

  function ThreadOf(a: Action): (t: Thread) {
    match a
    case Interrupt | InterrupterOp => InterrupterThread
    case Claim(_, _) | OpenPart(_) | ReportUnavailable(_, _, _) | FirstCheck(_) | Offer => RunnerOpening
    case ReadBlock | ReadFails | FlushDone | CheckWhole(_) | CheckFraming(_) | CheckAuthority(_) | LastDone | WriteFails => RunnerCopying
    case JoinWatcher | RunnerOp | SeeDone | Expire | Return => RunnerFinishing
    case Cut(_) | WatcherOp => WatcherThread
    case Transfer(_) | ContextEnds => Meeting
    case _ => BrowserThread
  }

  function SessionStep(digest: seq<byte> -> string, database: bool, s: Session, a: Action): (r: Option<Session>) {
    match ThreadOf(a)
    case BrowserThread => BrowserAction(database, s, a)
    case InterrupterThread => InterrupterAction(s, a)
    case RunnerOpening => OpeningAction(database, s, a)
    case RunnerCopying => CopyAction(digest, database, s, a)
    case RunnerFinishing => FinishAction(s, a)
    case WatcherThread => WatcherAction(database, s, a)
    case Meeting => TransferAction(s, a)
  }

  // --- The whole system -------------------------------------------------------------------------

  /** All sessions ever reserved, oldest first; those still in the broker's map have `entry.present`. */
  type System = seq<Session>

  function Active(sys: System): (ids: set<nat>) {
    set i: nat | i < |sys| && sys[i].entry.present
  }

  /** The broker's admission rule; identifiers are drawn fresh for each request. */
  predicate Admits(sys: System, id: string, actor: string) {
    && |Active(sys)| < 2
    && (forall i :: 0 <= i < |sys| && sys[i].entry.present ==> sys[i].actor != actor)
    && (forall i :: 0 <= i < |sys| ==> sys[i].id != id)
  }

  datatype Step = Reserve(id: string, actor: string) | Act(at: nat, action: Action)

  function Next(digest: seq<byte> -> string, database: bool, sys: System, step: Step): (r: Option<System>) {
    match step
    case Reserve(id, actor) => if Admits(sys, id, actor) then Some(sys + [Reserved(id, actor)]) else None
    case Act(at, action) =>
      if at >= |sys| then None else
      match SessionStep(digest, database, sys[at], action)
      case None => None
      case Some(s) => Some(sys[at := s])
  }

  /** The state after a sequence of steps from the empty broker, if each step was enabled. */
  function Run(digest: seq<byte> -> string, database: bool, steps: seq<Step>): (r: Option<System>)
    decreases |steps|
  {
    if steps == [] then Some([]) else
    match Run(digest, database, steps[..|steps| - 1])
    case None => None
    case Some(sys) => Next(digest, database, sys, steps[|steps| - 1])
  }
}
