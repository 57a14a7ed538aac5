/** Safety of the download rendezvous over every interleaving of its threads. */
module DownloadSafety {
  import opened Common
  import opened Pipes
  import opened DownloadProtocol

  // --- The session invariant ---------------------------------------------------------------------

  ghost predicate BeforeRemoval(b: Browser) {
    !b.Cleaning? && !b.Left?
  }

  ghost predicate BeforePlan(b: Browser) {
    b.Creating? || b.Planned?
  }

  /** The browser has started to read the pipe and has not given up. */
  ghost predicate Draining(b: Browser) {
    b.FirstRead? || b.Writing? || b.Reading?
  }

  ghost predicate Judged(b: Browser) {
    b.Joining? || b.Closing? || b.Removing? || b.Cleaning? || b.Left?
  }

  ghost function InHand(b: Browser): seq<byte> {
    if b.Writing? then b.chunk else []
  }

  ghost predicate Opening(r: Runner) {
    r.Absent? || r.Claimed? || r.CheckFirst? || r.OfferReady?
  }

  ghost predicate Copying(r: Runner) {
    r.Copy? || r.Flush? || r.Framing? || r.Recheck? || r.Last?
  }

  /** What the copying runner has read and not yet put into the pipe. */
  ghost function Carried(r: Runner): seq<byte> {
    match r
    case Copy(_, tail) => tail
    case Flush(_, out, next) => out + next
    case Framing(tail) => tail
    case Recheck(tail) => tail
    case Last(out) => out
    case _ => []
  }

  ghost function ReadTo(r: Runner, bytes: nat): nat {
    match r
    case Copy(read, _) => read
    case Flush(read, _, _) => read
    case _ => bytes
  }

  /** Length, digest, framing and authority all agreed while the last block was still held back. */
  ghost predicate Verified(digest: seq<byte> -> string, p: Plan, archive: seq<byte>, log: Log) {
    && |archive| == p.bytes
    && digest(archive) == p.digest
    && log.framed
    && log.recheckedAt == Some(Withheld(p.bytes))
  }

  ghost predicate EntryPart(e: Entry, row: Option<Plan>, b: Browser, r: Runner) {
    && e.present == BeforeRemoval(b)
    && e.doneCloses == (if e.present then 0 else 1)
    && (e.plan.Some? ==> row == e.plan && e.plan.value.bytes >= 1)
    && (b.Planned? ==> row == Some(b.p) && b.p.bytes >= 1)
    && (BeforePlan(b) ==> e.plan.None?)
    && (!BeforePlan(b) && !Judged(b) ==> e.plan.Some?)
    && (e.claimed <==> !r.Absent?)
    && (e.claimed ==> e.plan.Some?)
  }

  /** Bytes are conserved between the pipe, the browser's buffer and the client. */
  ghost predicate ClientPart(b: Browser, sent: seq<byte>, delivered: seq<byte>) {
    && delivered <= sent
    && (Draining(b) ==> delivered + InHand(b) == sent)
    && (!Draining(b) && !Judged(b) ==> sent == [])
  }

  /** Bytes are conserved between the archive, the runner's buffers and the pipe. */
  ghost predicate CarryPart(plan: Option<Plan>, stream: Stream, r: Runner, sent: seq<byte>) {
    && (sent != [] || Copying(r) ==> plan.Some? && stream.Archive?)
    && (stream.Archive? ==> sent <= stream.content)
    && (plan.Some? ==> |sent| <= plan.value.bytes)
    && (Opening(r) ==> sent == [])
    && (Copying(r) ==>
          && ReadTo(r, plan.value.bytes) <= |stream.content|
          && sent + Carried(r) == stream.content[..ReadTo(r, plan.value.bytes)])
  }

  /** The last block stays behind until every check has passed. */
  ghost predicate WithholdPart(digest: seq<byte> -> string, plan: Option<Plan>, stream: Stream, r: Runner, log: Log) {
    && (plan.Some? && |log.sent| > Withheld(plan.value.bytes) ==>
          stream.Archive? && Verified(digest, plan.value, stream.content, log))
    && (Copying(r) && plan.Some? && stream.Archive? ==>
          var bytes := plan.value.bytes;
          match r
          case Copy(read, tail) => AtBoundary(read, bytes) && |tail| == TailLength(read)
          case Flush(read, out, next) => AtBoundary(read, bytes) && |next| == TailLength(read)
          case Framing(tail) => HoldsLast(digest, plan.value, stream.content, tail)
          case Recheck(tail) => HoldsLast(digest, plan.value, stream.content, tail) && log.framed
          case Last(_) => Verified(digest, plan.value, stream.content, log)
          case _ => true)
  }

  ghost predicate HoldsLast(digest: seq<byte> -> string, p: Plan, archive: seq<byte>, tail: seq<byte>) {
    && |archive| == p.bytes
    && digest(archive) == p.digest
    && |tail| == TailLength(p.bytes)
  }

  /** The client holds exactly the archive of the runner's verified stream. */
  ghost predicate Complete(digest: seq<byte> -> string, plan: Option<Plan>, stream: Stream, log: Log) {
    && plan.Some?
    && stream.Archive?
    && log.delivered == stream.content
    && Verified(digest, plan.value, stream.content, log)
  }

  ghost predicate VerdictPart(digest: seq<byte> -> string, database: bool, e: Entry, stream: Stream, b: Browser, log: Log) {
    && (log.copied ==> Judged(b) && Complete(digest, e.plan, stream, log))
    && (b.Joining? || b.Closing? ==> b.copied == log.copied)
    && (b.Removing? ==> b.flag == (log.copied && (database ==> log.closeOk)))
    && (e.success ==> log.copied && (database ==> log.closeOk) && !e.present)
  }

  ghost predicate AnswerPart(e: Entry, stream: Stream, r: Runner, log: Log) {
    && (log.answer.Some? ==> r.Answered? || r.Returned?)
    && (log.answer == Some(Receipt) && stream.Archive? ==> e.success)
    && (r.Failing? ==> r.answer != EmptyOk && (r.answer == Receipt ==> stream.Unavailable?))
    && (log.answer == Some(EmptyOk) ==> stream.Archive? && log.sent == [])
    && (r.CheckFirst? || r.OfferReady? ==> stream.Archive?)
  }

  ghost predicate SessionInv(digest: seq<byte> -> string, database: bool, s: Session) {
    && EntryPart(s.entry, s.row, s.browser, s.runner)
    && ClientPart(s.browser, s.log.sent, s.log.delivered)
    && CarryPart(s.entry.plan, s.stream, s.runner, s.log.sent)
    && WithholdPart(digest, s.entry.plan, s.stream, s.runner, s.log)
    && VerdictPart(digest, database, s.entry, s.stream, s.browser, s.log)
    && AnswerPart(s.entry, s.stream, s.runner, s.log)
  }

  // --- Each thread keeps it ------------------------------------------------------------------------

  lemma ClientWriteKeeps(b: Browser, sent: seq<byte>, delivered: seq<byte>, n: nat, ok: bool)
    requires b.Writing? && n <= |b.chunk| && (ok ==> n == |b.chunk|)
    requires ClientPart(b, sent, delivered)
    ensures ClientPart(if ok then Reading else Joining(false), sent, delivered + b.chunk[..n])
  {
    assert delivered + b.chunk[..n] + b.chunk[n..] == sent by {
      assert b.chunk[..n] + b.chunk[n..] == b.chunk;
    }
  }

  /** A full count is a full archive: whatever reached the client is a prefix of verified content. */
  lemma FullCountIsComplete(digest: seq<byte> -> string, s: Session)
    requires s.entry.plan.Some? && s.entry.plan.value.bytes >= 1
    requires |s.log.delivered| == s.entry.plan.value.bytes
    requires ClientPart(s.browser, s.log.sent, s.log.delivered)
    requires CarryPart(s.entry.plan, s.stream, s.runner, s.log.sent)
    requires WithholdPart(digest, s.entry.plan, s.stream, s.runner, s.log)
    ensures Complete(digest, s.entry.plan, s.stream, s.log)
  {
    var bytes := s.entry.plan.value.bytes;
    assert |s.log.sent| == bytes > Withheld(bytes);
    assert s.log.delivered == s.log.sent == s.stream.content;
  }

  lemma ReadEndsKeeps(digest: seq<byte> -> string, database: bool, s: Session)
    requires SessionInv(digest, database, s) && BrowserAction(database, s, ReadEnds).Some?
    ensures SessionInv(digest, database, BrowserAction(database, s, ReadEnds).value)
  {
    var after := BrowserAction(database, s, ReadEnds).value;
    assert after.entry == s.entry && after.runner == s.runner && after.stream == s.stream;
    if s.browser == Reading && |s.log.delivered| == s.entry.plan.value.bytes {
      FullCountIsComplete(digest, s);
    }
  }

  lemma ClientWritePreserves(digest: seq<byte> -> string, database: bool, s: Session, a: Action)
    requires a.ClientWrite? && SessionInv(digest, database, s) && BrowserAction(database, s, a).Some?
    ensures SessionInv(digest, database, BrowserAction(database, s, a).value)
  {
    ClientWriteKeeps(s.browser, s.log.sent, s.log.delivered, a.n, a.ok);
  }

  /** Waiting, giving up and tearing down move no byte. */
  lemma WaitingKeeps(digest: seq<byte> -> string, database: bool, s: Session, a: Action)
    requires a.Create? || a.CreateFails? || a.SetPlan? || a.TakeReady? || a.GiveUpWaiting? || a.BrowserChecked?
    requires SessionInv(digest, database, s) && BrowserAction(database, s, a).Some?
    ensures SessionInv(digest, database, BrowserAction(database, s, a).value)
  {
  }

  lemma VerdictKeeps(digest: seq<byte> -> string, database: bool, s: Session, a: Action)
    requires (a.JoinInterrupter? || a.DurableClose?) && SessionInv(digest, database, s) && BrowserAction(database, s, a).Some?
    ensures SessionInv(digest, database, BrowserAction(database, s, a).value)
  {
  }

  lemma RemoveKeeps(digest: seq<byte> -> string, database: bool, s: Session)
    requires SessionInv(digest, database, s) && BrowserAction(database, s, Remove).Some?
    ensures SessionInv(digest, database, BrowserAction(database, s, Remove).value)
  {
  }

  lemma BrowserOpKeeps(digest: seq<byte> -> string, database: bool, s: Session)
    requires SessionInv(digest, database, s) && BrowserAction(database, s, BrowserOp).Some?
    ensures SessionInv(digest, database, BrowserAction(database, s, BrowserOp).value)
  {
  }

  lemma BrowserKeeps(digest: seq<byte> -> string, database: bool, s: Session, a: Action)
    requires ThreadOf(a) == BrowserThread
    requires SessionInv(digest, database, s) && BrowserAction(database, s, a).Some?
    ensures SessionInv(digest, database, BrowserAction(database, s, a).value)
  {
    if a.ClientWrite? {
      ClientWritePreserves(digest, database, s, a);
    } else if a.ReadEnds? {
      ReadEndsKeeps(digest, database, s);
    } else if a.JoinInterrupter? || a.DurableClose? {
      VerdictKeeps(digest, database, s, a);
    } else if a.Remove? {
      RemoveKeeps(digest, database, s);
    } else if a.BrowserOp? {
      BrowserOpKeeps(digest, database, s);
    } else {
      WaitingKeeps(digest, database, s, a);
    }
  }

  lemma InterrupterKeeps(digest: seq<byte> -> string, database: bool, s: Session, a: Action)
    requires SessionInv(digest, database, s) && InterrupterAction(s, a).Some?
    ensures SessionInv(digest, database, InterrupterAction(s, a).value)
  {
  }

  lemma ClaimKeeps(digest: seq<byte> -> string, database: bool, s: Session, a: Action)
    requires a.Claim? && SessionInv(digest, database, s) && OpeningAction(database, s, a).Some?
    ensures SessionInv(digest, database, OpeningAction(database, s, a).value)
  {
  }

  lemma ReportKeeps(digest: seq<byte> -> string, database: bool, s: Session, a: Action)
    requires a.ReportUnavailable? && SessionInv(digest, database, s) && OpeningAction(database, s, a).Some?
    ensures SessionInv(digest, database, OpeningAction(database, s, a).value)
  {
  }

  lemma PartKeeps(digest: seq<byte> -> string, database: bool, s: Session, a: Action)
    requires (a.OpenPart? || a.FirstCheck?) && SessionInv(digest, database, s) && OpeningAction(database, s, a).Some?
    ensures SessionInv(digest, database, OpeningAction(database, s, a).value)
  {
  }

  lemma OfferKeeps(digest: seq<byte> -> string, database: bool, s: Session)
    requires SessionInv(digest, database, s) && OpeningAction(database, s, Offer).Some?
    ensures SessionInv(digest, database, OpeningAction(database, s, Offer).value)
  {
    assert s.log.sent == [] && [] + [] == s.stream.content[..0];
  }

  lemma OpeningKeeps(digest: seq<byte> -> string, database: bool, s: Session, a: Action)
    requires ThreadOf(a) == RunnerOpening
    requires SessionInv(digest, database, s) && OpeningAction(database, s, a).Some?
    ensures SessionInv(digest, database, OpeningAction(database, s, a).value)
  {
    match a
    case Claim(_, _) => ClaimKeeps(digest, database, s, a);
    case ReportUnavailable(_, _, _) => ReportKeeps(digest, database, s, a);
    case Offer => OfferKeeps(digest, database, s);
    case _ => PartKeeps(digest, database, s, a);
  }

  lemma ReadBlockKeeps(digest: seq<byte> -> string, database: bool, s: Session)
    requires SessionInv(digest, database, s) && CopyAction(digest, database, s, ReadBlock).Some?
    ensures SessionInv(digest, database, CopyAction(digest, database, s, ReadBlock).value)
  {
    var read, bytes, archive := s.runner.read, s.entry.plan.value.bytes, s.stream.content;
    NextBoundary(read, bytes);
    ReadExtends(archive, s.log.sent, s.runner.tail, read, Min(BLOCK, bytes - read));
  }

  lemma FlushDoneKeeps(digest: seq<byte> -> string, database: bool, s: Session)
    requires SessionInv(digest, database, s) && CopyAction(digest, database, s, FlushDone).Some?
    ensures SessionInv(digest, database, CopyAction(digest, database, s, FlushDone).value)
  {
    assert [] + s.runner.next == s.runner.next;
  }

  lemma CheckWholeKeeps(digest: seq<byte> -> string, database: bool, s: Session, a: Action)
    requires a.CheckWhole? && SessionInv(digest, database, s) && CopyAction(digest, database, s, a).Some?
    ensures SessionInv(digest, database, CopyAction(digest, database, s, a).value)
  {
  }

  lemma CheckFramingKeeps(digest: seq<byte> -> string, database: bool, s: Session, a: Action)
    requires a.CheckFraming? && SessionInv(digest, database, s) && CopyAction(digest, database, s, a).Some?
    ensures SessionInv(digest, database, CopyAction(digest, database, s, a).value)
  {
  }

  /** Authority is checked again while exactly the withheld prefix has left. */
  lemma CheckAuthorityKeeps(digest: seq<byte> -> string, database: bool, s: Session, a: Action)
    requires a.CheckAuthority? && SessionInv(digest, database, s) && CopyAction(digest, database, s, a).Some?
    ensures SessionInv(digest, database, CopyAction(digest, database, s, a).value)
  {
    SentIsPrefix(s.stream.content, s.log.sent, s.runner.tail, s.entry.plan.value.bytes);
  }

  lemma CopyStopsKeep(digest: seq<byte> -> string, database: bool, s: Session, a: Action)
    requires a.ReadFails? || a.WriteFails? || a.LastDone?
    requires SessionInv(digest, database, s) && CopyAction(digest, database, s, a).Some?
    ensures SessionInv(digest, database, CopyAction(digest, database, s, a).value)
  {
  }

  lemma CopyKeeps(digest: seq<byte> -> string, database: bool, s: Session, a: Action)
    requires ThreadOf(a) == RunnerCopying
    requires SessionInv(digest, database, s) && CopyAction(digest, database, s, a).Some?
    ensures SessionInv(digest, database, CopyAction(digest, database, s, a).value)
  {
    match a
    case ReadBlock => ReadBlockKeeps(digest, database, s);
    case FlushDone => FlushDoneKeeps(digest, database, s);
    case CheckWhole(_) => CheckWholeKeeps(digest, database, s, a);
    case CheckFraming(_) => CheckFramingKeeps(digest, database, s, a);
    case CheckAuthority(_) => CheckAuthorityKeeps(digest, database, s, a);
    case _ => CopyStopsKeep(digest, database, s, a);
  }

  lemma FinishingOpKeeps(digest: seq<byte> -> string, database: bool, s: Session)
    requires s.runner.Finishing? && SessionInv(digest, database, s)
    ensures SessionInv(digest, database, FinishAction(s, RunnerOp).value)
  {
  }

  lemma FailureAnswers(digest: seq<byte> -> string, database: bool, s: Session)
    requires s.runner.Failing? && s.runner.ops == [] && SessionInv(digest, database, s)
    ensures SessionInv(digest, database, FinishAction(s, RunnerOp).value)
  {
  }

  lemma FailingOpKeeps(digest: seq<byte> -> string, database: bool, s: Session)
    requires s.runner.Failing? && s.runner.ops != [] && SessionInv(digest, database, s)
    ensures SessionInv(digest, database, FinishAction(s, RunnerOp).value)
  {
    var after := FinishAction(s, RunnerOp).value;
    assert after.log == s.log && after.entry == s.entry && after.browser == s.browser;
  }

  lemma AnswerKeeps(digest: seq<byte> -> string, database: bool, s: Session, a: Action)
    requires (a.SeeDone? || a.Expire?) && SessionInv(digest, database, s) && FinishAction(s, a).Some?
    ensures SessionInv(digest, database, FinishAction(s, a).value)
  {
  }

  lemma JoinKeeps(digest: seq<byte> -> string, database: bool, s: Session, a: Action)
    requires (a.JoinWatcher? || a.Return?) && SessionInv(digest, database, s) && FinishAction(s, a).Some?
    ensures SessionInv(digest, database, FinishAction(s, a).value)
  {
  }

  lemma FinishKeeps(digest: seq<byte> -> string, database: bool, s: Session, a: Action)
    requires ThreadOf(a) == RunnerFinishing
    requires SessionInv(digest, database, s) && FinishAction(s, a).Some?
    ensures SessionInv(digest, database, FinishAction(s, a).value)
  {
    match a
    case RunnerOp =>
      if s.runner.Finishing? {
        FinishingOpKeeps(digest, database, s);
      } else if s.runner.ops == [] {
        FailureAnswers(digest, database, s);
      } else {
        FailingOpKeeps(digest, database, s);
      }
    case JoinWatcher => JoinKeeps(digest, database, s, a);
    case Return => JoinKeeps(digest, database, s, a);
    case _ => AnswerKeeps(digest, database, s, a);
  }

  lemma WatcherKeeps(digest: seq<byte> -> string, database: bool, s: Session, a: Action)
    requires SessionInv(digest, database, s) && WatcherAction(database, s, a).Some?
    ensures SessionInv(digest, database, WatcherAction(database, s, a).value)
  {
  }

  lemma TransferConserves(r: Runner, r': Runner, sent: seq<byte>, n: nat)
    requires (r.Flush? || r.Last?) && 0 < n <= |r.out|
    requires r' == if r.Flush? then Flush(r.read, r.out[n..], r.next) else Last(r.out[n..])
    ensures (sent + r.out[..n]) + Carried(r') == sent + Carried(r)
  {
    PassExtends(sent, r.out, if r.Flush? then r.next else [], n);
  }

  lemma TransferKeeps(digest: seq<byte> -> string, database: bool, s: Session, a: Action)
    requires SessionInv(digest, database, s) && TransferAction(s, a).Some?
    ensures SessionInv(digest, database, TransferAction(s, a).value)
  {
    if a.Transfer? {
      var s' := TransferAction(s, a).value;
      var bytes := s.entry.plan.value.bytes;
      TransferConserves(s.runner, s'.runner, s.log.sent, a.n);
      if s.runner.Flush? { ReleasedStaysBelow(s.runner.read, bytes); }
      var k := ReadTo(s.runner, bytes);
      SentIsPrefix(s.stream.content, s'.log.sent, Carried(s'.runner), k);
      assert ClientPart(s'.browser, s'.log.sent, s'.log.delivered);
    }
  }

  lemma StepKeeps(digest: seq<byte> -> string, database: bool, s: Session, a: Action)
    requires SessionInv(digest, database, s) && SessionStep(digest, database, s, a).Some?
    ensures SessionInv(digest, database, SessionStep(digest, database, s, a).value)
  {
    match ThreadOf(a)
    case BrowserThread => BrowserKeeps(digest, database, s, a);
    case InterrupterThread => InterrupterKeeps(digest, database, s, a);
    case RunnerOpening => OpeningKeeps(digest, database, s, a);
    case RunnerCopying => CopyKeeps(digest, database, s, a);
    case RunnerFinishing => FinishKeeps(digest, database, s, a);
    case WatcherThread => WatcherKeeps(digest, database, s, a);
    case Meeting => TransferKeeps(digest, database, s, a);
  }

  // --- What one session's history may do -------------------------------------------------------------

  /** `t` is a later state of session `s`: nothing decided, claimed, closed or delivered is taken back. */
  ghost predicate Later(s: Session, t: Session) {
    && t.id == s.id
    && t.actor == s.actor
    && (s.entry.claimed ==> t.entry.claimed && t.stream == s.stream)
    && (t.entry.present ==> s.entry.present)
    && (s.entry.plan.Some? ==> t.entry.plan == s.entry.plan)
    && s.entry.doneCloses <= t.entry.doneCloses
    && (s.entry.success ==> t.entry.success)
    && (s.log.answer.Some? ==> t.log.answer == s.log.answer)
    && s.log.sent <= t.log.sent
    && s.log.delivered <= t.log.delivered
  }

  ghost predicate Ordered(e: Entry, b: Browser, r: Runner, log: Log) {
    && (e.success ==> !e.present)
    && (e.plan.Some? ==> !BeforePlan(b))
    && (log.answer.Some? ==> r.Answered? || r.Returned?)
  }

  lemma BrowserIsLater(database: bool, s: Session, a: Action)
    requires Ordered(s.entry, s.browser, s.runner, s.log) && BrowserAction(database, s, a).Some?
    ensures Later(s, BrowserAction(database, s, a).value)
  {
  }

  lemma OpeningIsLater(database: bool, s: Session, a: Action)
    requires Ordered(s.entry, s.browser, s.runner, s.log) && OpeningAction(database, s, a).Some?
    ensures Later(s, OpeningAction(database, s, a).value)
  {
  }

  lemma CopyIsLater(digest: seq<byte> -> string, database: bool, s: Session, a: Action)
    requires Ordered(s.entry, s.browser, s.runner, s.log) && CopyAction(digest, database, s, a).Some?
    ensures Later(s, CopyAction(digest, database, s, a).value)
  {
  }

  lemma FinishIsLater(s: Session, a: Action)
    requires Ordered(s.entry, s.browser, s.runner, s.log) && FinishAction(s, a).Some?
    ensures Later(s, FinishAction(s, a).value)
  {
  }

  lemma OthersAreLater(digest: seq<byte> -> string, database: bool, s: Session, a: Action)
    requires ThreadOf(a) in {InterrupterThread, WatcherThread, Meeting}
    requires SessionStep(digest, database, s, a).Some?
    ensures Later(s, SessionStep(digest, database, s, a).value)
  {
  }

  lemma StepIsLater(digest: seq<byte> -> string, database: bool, s: Session, a: Action)
    requires Ordered(s.entry, s.browser, s.runner, s.log) && SessionStep(digest, database, s, a).Some?
    ensures Later(s, SessionStep(digest, database, s, a).value)
  {
    match ThreadOf(a)
    case BrowserThread => BrowserIsLater(database, s, a);
    case RunnerOpening => OpeningIsLater(database, s, a);
    case RunnerCopying => CopyIsLater(digest, database, s, a);
    case RunnerFinishing => FinishIsLater(s, a);
    case _ => OthersAreLater(digest, database, s, a);
  }

  lemma BrowserClaimsNothing(database: bool, s: Session, a: Action)
    requires BrowserAction(database, s, a).Some?
    ensures BrowserAction(database, s, a).value.entry.claimed == s.entry.claimed
  {
  }

  /** A claim needs the broker's map and the plan's own hash, and only the first one is admitted. */
  lemma OnlyClaimClaims(digest: seq<byte> -> string, database: bool, s: Session, a: Action)
    requires SessionStep(digest, database, s, a).Some?
    requires SessionStep(digest, database, s, a).value.entry.claimed != s.entry.claimed
    ensures a.Claim? && !s.entry.claimed && s.entry.present && s.entry.plan.Some? && s.entry.plan.value.hash == a.hash && !s.ch.canceled
  {
    if ThreadOf(a) == BrowserThread { BrowserClaimsNothing(database, s, a); }
  }

  /** Outside the browser handler an entry changes at most by being claimed. */
  lemma OthersKeepEntry(digest: seq<byte> -> string, database: bool, s: Session, a: Action)
    requires ThreadOf(a) != BrowserThread && SessionStep(digest, database, s, a).Some?
    ensures var t := SessionStep(digest, database, s, a).value; t.entry == s.entry.(claimed := t.entry.claimed)
  {
    if ThreadOf(a) == RunnerCopying { CopyKeepsEntry(digest, database, s, a); }
  }

  lemma CopyKeepsEntry(digest: seq<byte> -> string, database: bool, s: Session, a: Action)
    requires CopyAction(digest, database, s, a).Some?
    ensures CopyAction(digest, database, s, a).value.entry == s.entry
  {
  }

  /** Only the browser's own removal takes a session out of the map, and it closes `done` as it does. */
  lemma OnlyRemoveRemoves(digest: seq<byte> -> string, database: bool, s: Session, a: Action)
    requires EntryPart(s.entry, s.row, s.browser, s.runner) && SessionStep(digest, database, s, a).Some?
    ensures var t := SessionStep(digest, database, s, a).value;
            && (t.entry.present != s.entry.present <==> t.entry.doneCloses != s.entry.doneCloses)
            && (t.entry.present != s.entry.present ==> a.Remove? && s.browser.Removing? && t.entry.success == s.browser.flag)
            && (t.entry.success != s.entry.success ==> t.entry.present != s.entry.present)
            && (a.SetPlan? ==> s.entry.present)
  {
    if ThreadOf(a) != BrowserThread { OthersKeepEntry(digest, database, s, a); }
  }

  // --- Every reachable state ---------------------------------------------------------------------------

  ghost predicate SystemInv(digest: seq<byte> -> string, database: bool, sys: System) {
    && |Active(sys)| <= 2
    && (forall i :: 0 <= i < |sys| ==> SessionInv(digest, database, sys[i]))
    && (forall i, j :: 0 <= i < j < |sys| ==> sys[i].id != sys[j].id)
    && (forall i, j :: 0 <= i < j < |sys| && sys[i].entry.present && sys[j].entry.present ==> sys[i].actor != sys[j].actor)
  }

  lemma ReserveKeeps(digest: seq<byte> -> string, database: bool, sys: System, id: string, actor: string)
    requires SystemInv(digest, database, sys) && Admits(sys, id, actor)
    ensures SystemInv(digest, database, sys + [Reserved(id, actor)])
  {
    var sys' := sys + [Reserved(id, actor)];
    ActiveGrows(sys, Reserved(id, actor));
    ReservedInv(digest, database, id, actor);
    forall i, j | 0 <= i < j < |sys'|
      ensures sys'[i].id != sys'[j].id
      ensures sys'[i].entry.present && sys'[j].entry.present ==> sys'[i].actor != sys'[j].actor
    {
      assert sys'[i] == sys[i];
    }
  }

  lemma ReservedInv(digest: seq<byte> -> string, database: bool, id: string, actor: string)
    ensures SessionInv(digest, database, Reserved(id, actor))
  {
  }

  lemma ActiveGrows(sys: System, s: Session)
    ensures |Active(sys + [s])| <= |Active(sys)| + 1
  {
    assert Active(sys + [s]) <= Active(sys) + {|sys|};
    SubsetSize(Active(sys + [s]), Active(sys) + {|sys|});
  }

  lemma ActKeeps(digest: seq<byte> -> string, database: bool, sys: System, at: nat, a: Action)
    requires SystemInv(digest, database, sys) && at < |sys| && SessionStep(digest, database, sys[at], a).Some?
    ensures SystemInv(digest, database, sys[at := SessionStep(digest, database, sys[at], a).value])
  {
    var s' := SessionStep(digest, database, sys[at], a).value;
    StepKeeps(digest, database, sys[at], a);
    StepIsLater(digest, database, sys[at], a);
    var sys' := sys[at := s'];
    assert Active(sys') <= Active(sys);
    SubsetSize(Active(sys'), Active(sys));
  }

  lemma {:induction false} RunKeeps(digest: seq<byte> -> string, database: bool, steps: seq<Step>)
    requires Run(digest, database, steps).Some?
    ensures SystemInv(digest, database, Run(digest, database, steps).value)
    decreases |steps|
  {
    if steps != [] {
      var before, last := steps[..|steps| - 1], steps[|steps| - 1];
      RunKeeps(digest, database, before);
      var sys := Run(digest, database, before).value;
      match last
      case Reserve(id, actor) => ReserveKeeps(digest, database, sys, id, actor);
      case Act(at, a) => ActKeeps(digest, database, sys, at, a);
    }
  }

  /** Along every run, every session only ever moves to a later state of itself. */
  lemma {:induction false} RunIsLater(digest: seq<byte> -> string, database: bool, steps: seq<Step>, k: nat)
    requires k <= |steps| && Run(digest, database, steps).Some?
    ensures Run(digest, database, steps[..k]).Some?
    ensures var was, now := Run(digest, database, steps[..k]).value, Run(digest, database, steps).value;
            |was| <= |now| && forall i :: 0 <= i < |was| ==> Later(was[i], now[i])
    decreases |steps|
  {
    if k == |steps| {
      assert steps[..k] == steps;
    } else {
      var before, last := steps[..|steps| - 1], steps[|steps| - 1];
      assert before[..k] == steps[..k];
      RunIsLater(digest, database, before, k);
      RunKeeps(digest, database, before);
      var mid := Run(digest, database, before).value;
      if last.Act? {
        StepIsLater(digest, database, mid[last.at], last.action);
      }
    }
  }

  // --- Main results ------------------------------------------------------------------------------------

  /**
   In every reachable state the broker holds at most two sessions, of different actors; `done` has been
   closed exactly once for every session that left the map and never for one still in it; and a
   session that is setting its plan is in the map.
   */
  lemma BrokerSafety(digest: seq<byte> -> string, database: bool, steps: seq<Step>)
    requires Run(digest, database, steps).Some?
    ensures var sys := Run(digest, database, steps).value;
            && |Active(sys)| <= 2
            && (forall i, j :: 0 <= i < j < |sys| && sys[i].entry.present && sys[j].entry.present ==> sys[i].actor != sys[j].actor)
            && (forall i :: 0 <= i < |sys| ==>
                  && sys[i].entry.doneCloses == (if sys[i].entry.present then 0 else 1)
                  && (sys[i].browser.Planned? ==> sys[i].entry.present))
  {
    RunKeeps(digest, database, steps);
    var sys := Run(digest, database, steps).value;
    forall i | 0 <= i < |sys|
      ensures sys[i].entry.doneCloses == (if sys[i].entry.present then 0 else 1)
      ensures sys[i].browser.Planned? ==> sys[i].entry.present
    {
      assert SessionInv(digest, database, sys[i]);
    }
  }

  /**
   The browser handler judges a transfer successful only if the client received exactly the runner's
   archive part, of the planned length and digest, and framing and authority were checked when
   exactly all but the last block had left. No client ever holds a byte of the last block otherwise.
   */
  lemma DownloadSafety(digest: seq<byte> -> string, database: bool, steps: seq<Step>, i: nat)
    requires Run(digest, database, steps).Some? && i < |Run(digest, database, steps).value|
    ensures var s := Run(digest, database, steps).value[i];
            && (s.log.copied ==> Complete(digest, s.entry.plan, s.stream, s.log))
            && s.log.delivered <= s.log.sent
            && (s.log.sent != [] ==> s.stream.Archive? && s.log.sent <= s.stream.content)
            && (s.entry.plan.Some? && |s.log.delivered| > Withheld(s.entry.plan.value.bytes) ==>
                  s.stream.Archive? && Verified(digest, s.entry.plan.value, s.stream.content, s.log))
  {
    RunKeeps(digest, database, steps);
  }

  /**
   A receipt for an archive stream follows a complete delivery, and in the database variant also a
   successful durable close. Status 200 without a receipt means that no byte ever left.
   */
  lemma ReceiptSafety(digest: seq<byte> -> string, database: bool, steps: seq<Step>, i: nat)
    requires Run(digest, database, steps).Some? && i < |Run(digest, database, steps).value|
    ensures var s := Run(digest, database, steps).value[i];
            s.stream.Archive? ==>
              && (s.log.answer == Some(Receipt) ==>
                    && Complete(digest, s.entry.plan, s.stream, s.log)
                    && s.entry.doneCloses == 1
                    && (database ==> s.log.closeOk))
              && (s.log.answer == Some(EmptyOk) ==> s.log.sent == [] && s.log.delivered == [] && !s.log.copied)
  {
    RunKeeps(digest, database, steps);
    assert SessionInv(digest, database, Run(digest, database, steps).value[i]);
  }
}
