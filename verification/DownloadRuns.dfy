/** Concrete runs of the download rendezvous: what its safety theorems allow does happen. */
module DownloadRuns {
  import opened Common
  import opened Pipes
  import opened DownloadProtocol
  import opened DownloadSafety

  /** Some run of the broker leads to exactly this one session. */
  ghost predicate Reachable(digest: seq<byte> -> string, database: bool, s: Session) {
    exists steps :: Run(digest, database, steps) == Some([s])
  }

  lemma StartReachable(digest: seq<byte> -> string, database: bool)
    ensures Reachable(digest, database, Reserved("id", "actor"))
  {
    var s := Reserved("id", "actor");
    var steps := [Reserve("id", "actor")];
    assert steps[..0] == [] && Active([]) == {} && [] + [s] == [s];
    assert Run(digest, database, []) == Some([]);
    assert Run(digest, database, steps) == Some([s]);
  }

  /** One more action of the only session of a run. */
  lemma Play(digest: seq<byte> -> string, database: bool, s: Session, a: Action) returns (s': Session)
    requires Reachable(digest, database, s) && SessionStep(digest, database, s, a).Some?
    ensures s' == SessionStep(digest, database, s, a).value
    ensures Reachable(digest, database, s')
  {
    s' := SessionStep(digest, database, s, a).value;
    var steps :| Run(digest, database, steps) == Some([s]);
    var steps' := steps + [Act(0, a)];
    assert steps'[..|steps'| - 1] == steps;
    assert [s][0 := s'] == [s'];
    assert Run(digest, database, steps') == Some([s']);
  }

  /** `R` holds of a newly reserved session and of whatever one of its actions makes of a session in `R`. */
  ghost predicate Inductive(digest: seq<byte> -> string, database: bool, R: Session -> bool) {
    && R(Reserved("id", "actor"))
    && forall s, a :: R(s) && SessionStep(digest, database, s, a).Some? ==> R(SessionStep(digest, database, s, a).value)
  }

  lemma ReachableIsInductive(digest: seq<byte> -> string, database: bool)
    ensures Inductive(digest, database, s => Reachable(digest, database, s))
  {
    StartReachable(digest, database);
    forall s, a | Reachable(digest, database, s) && SessionStep(digest, database, s, a).Some?
      ensures Reachable(digest, database, SessionStep(digest, database, s, a).value)
    {
      var s' := Play(digest, database, s, a);
    }
  }

  const SAMPLE: seq<byte> := [7]

  function SamplePlan(digest: seq<byte> -> string): (p: Plan) {
    Plan("hash", 1, digest(SAMPLE))
  }

  lemma SamplePlanned(digest: seq<byte> -> string, database: bool, R: Session -> bool) returns (s: Session)
    requires Inductive(digest, database, R)
    ensures R(s)
    ensures s == Reserved("id", "actor").(
                   entry := Entry(Some(SamplePlan(digest)), false, false, true, 0), row := Some(SamplePlan(digest)),
                   browser := AwaitReady, interrupter := if database then Armed else Disarmed)
  {
    s := Reserved("id", "actor");
    s := SessionStep(digest, database, s, Create(SamplePlan(digest))).value;
    s := SessionStep(digest, database, s, SetPlan(true)).value;
  }

  /** A session reserved, planned and claimed with a one-byte archive, about to offer the stream. */
  lemma Opened(digest: seq<byte> -> string, database: bool, R: Session -> bool) returns (s: Session)
    requires Inductive(digest, database, R)
    ensures R(s)
    ensures s == Reserved("id", "actor").(
                   entry := Entry(Some(SamplePlan(digest)), true, false, true, 0), row := Some(SamplePlan(digest)),
                   browser := AwaitReady, interrupter := if database then Armed else Disarmed,
                   runner := OfferReady, watcher := Watching, stream := Archive(SAMPLE))
  {
    s := SamplePlanned(digest, database, R);
    s := SessionStep(digest, database, s, Claim("hash", Archive(SAMPLE))).value;
    s := SessionStep(digest, database, s, OpenPart(true)).value;
    s := SessionStep(digest, database, s, FirstCheck(None)).value;
  }

  /** What the later stages of the sample run need of the rest of the session. */
  ghost predicate Sampled(digest: seq<byte> -> string, s: Session) {
    && s.stream == Archive(SAMPLE)
    && s.entry == Entry(Some(SamplePlan(digest)), true, false, true, 0)
    && s.row == Some(SamplePlan(digest))
    && !s.interrupter.Firing?
    && !s.watcher.Cutting?
  }

  lemma Offered(digest: seq<byte> -> string, database: bool, R: Session -> bool) returns (s: Session)
    requires Inductive(digest, database, R)
    ensures R(s) && Sampled(digest, s) && s.runner == Copy(0, []) && s.browser == FirstRead
    ensures s.ch.pipe == OPEN && s.log.delivered == []
  {
    s := Opened(digest, database, R);
    s := SessionStep(digest, database, s, Offer).value;
    s := SessionStep(digest, database, s, TakeReady).value;
    s := SessionStep(digest, database, s, BrowserChecked(true)).value;
  }

  lemma BlockRead(digest: seq<byte> -> string, database: bool, R: Session -> bool) returns (s: Session)
    requires Inductive(digest, database, R)
    ensures R(s) && Sampled(digest, s) && s.runner == Copy(1, SAMPLE) && s.browser == FirstRead
    ensures s.ch.pipe == OPEN && s.log.delivered == []
  {
    s := Offered(digest, database, R);
    s := SessionStep(digest, database, s, ReadBlock).value;
    assert s.runner == Flush(1, [], SAMPLE);
    s := SessionStep(digest, database, s, FlushDone).value;
  }

  /** All checks passed and the whole archive still held back. */
  lemma Checked(digest: seq<byte> -> string, database: bool, R: Session -> bool) returns (s: Session)
    requires Inductive(digest, database, R)
    ensures R(s) && Sampled(digest, s) && s.runner == Last(SAMPLE) && s.browser == FirstRead
    ensures s.ch.pipe == OPEN && s.log.delivered == []
  {
    s := BlockRead(digest, database, R);
    s := SessionStep(digest, database, s, CheckWhole(false)).value;
    s := SessionStep(digest, database, s, CheckFraming(true)).value;
    s := SessionStep(digest, database, s, CheckAuthority(None)).value;
  }

  lemma HandedOver(digest: seq<byte> -> string, database: bool, R: Session -> bool) returns (s: Session)
    requires Inductive(digest, database, R)
    ensures R(s) && Sampled(digest, s) && s.runner == Last([]) && s.browser == Writing(SAMPLE)
    ensures s.ch.pipe == OPEN && s.log.delivered == []
  {
    s := Checked(digest, database, R);
    s := SessionStep(digest, database, s, Transfer(1)).value;
    assert s.runner == Last([]) && s.browser == Writing(SAMPLE);
  }

  lemma Delivered(digest: seq<byte> -> string, database: bool, R: Session -> bool) returns (s: Session)
    requires Inductive(digest, database, R)
    ensures R(s) && Sampled(digest, s) && s.runner == StopWatching && s.browser == Reading
    ensures s.ch.pipe == OPEN && |s.log.delivered| == 1
  {
    s := HandedOver(digest, database, R);
    s := SessionStep(digest, database, s, ClientWrite(1, true)).value;
    s := SessionStep(digest, database, s, LastDone).value;
  }

  lemma WriterClosed(digest: seq<byte> -> string, database: bool, R: Session -> bool) returns (s: Session)
    requires Inductive(digest, database, R)
    ensures R(s) && Sampled(digest, s) && s.runner == Finishing([]) && s.browser == Reading
    ensures s.ch.pipe == Pipe(None, Some(Eof), true) && |s.log.delivered| == 1
  {
    s := Delivered(digest, database, R);
    s := SessionStep(digest, database, s, JoinWatcher).value;
    s := SessionStep(digest, database, s, RunnerOp).value;
    s := SessionStep(digest, database, s, RunnerOp).value;
  }

  /** The watcher joined, the writer closed and the browser at end of input. */
  lemma Copied(digest: seq<byte> -> string, database: bool, R: Session -> bool) returns (s: Session)
    requires Inductive(digest, database, R)
    ensures R(s) && Sampled(digest, s) && s.runner == AwaitDone && s.browser == Joining(true)
  {
    s := WriterClosed(digest, database, R);
    s := SessionStep(digest, database, s, RunnerOp).value;
    s := SessionStep(digest, database, s, ReadEnds).value;
  }

  lemma Closed(digest: seq<byte> -> string, database: bool, closeOk: bool) returns (s: Session)
    ensures Reachable(digest, database, s) && s.stream.Archive?
    ensures s.log.closeOk == closeOk
    ensures s.log.answer == Some(if database && !closeOk then ErrorStatus else Receipt)
  {
    ReachableIsInductive(digest, database);
    s := ClosedIn(digest, database, closeOk, s => Reachable(digest, database, s));
  }

  lemma JudgedIn(digest: seq<byte> -> string, database: bool, closeOk: bool, R: Session -> bool) returns (s: Session)
    requires Inductive(digest, database, R)
    ensures R(s) && Sampled(digest, s) && s.runner == AwaitDone && s.log.closeOk == closeOk
    ensures s.browser == Removing(database ==> closeOk)
  {
    s := Copied(digest, database, R);
    s := SessionStep(digest, database, s, JoinInterrupter).value;
    s := SessionStep(digest, database, s, DurableClose(closeOk)).value;
  }

  lemma ClosedIn(digest: seq<byte> -> string, database: bool, closeOk: bool, R: Session -> bool) returns (s: Session)
    requires Inductive(digest, database, R)
    ensures R(s) && s.stream.Archive?
    ensures s.log.closeOk == closeOk
    ensures s.log.answer == Some(if database && !closeOk then ErrorStatus else Receipt)
  {
    s := JudgedIn(digest, database, closeOk, R);
    s := SessionStep(digest, database, s, Remove).value;
    s := SessionStep(digest, database, s, SeeDone).value;
  }

  ghost predicate ReceiptDespiteFailedClose(digest: seq<byte> -> string, database: bool, steps: seq<Step>, i: nat) {
    && Run(digest, database, steps).Some? && i < |Run(digest, database, steps).value|
    && var s := Run(digest, database, steps).value[i];
    && s.stream.Archive? && s.log.answer == Some(Receipt) && !s.log.closeOk
  }

  /**
   A receipt stands for a durable close in exactly one of the two variants: the storage handlers
   ignore the result of the close.
   */
  lemma ReceiptImpliesCloseIffDatabase(digest: seq<byte> -> string, database: bool)
    ensures (forall steps, i :: !ReceiptDespiteFailedClose(digest, database, steps, i)) <==> database
  {
    if database {
      forall steps, i ensures !ReceiptDespiteFailedClose(digest, database, steps, i) {
        if ReceiptDespiteFailedClose(digest, database, steps, i) { ReceiptSafety(digest, database, steps, i); }
      }
    } else {
      var s := Closed(digest, database, false);
      var steps :| Run(digest, database, steps) == Some([s]);
      assert ReceiptDespiteFailedClose(digest, database, steps, 0);
    }
  }

  /** A complete transfer does reach its receipt. */
  lemma ReceiptIsReachable(digest: seq<byte> -> string, database: bool) returns (s: Session)
    ensures Reachable(digest, database, s)
    ensures s.log.answer == Some(Receipt) && Complete(digest, s.entry.plan, s.stream, s.log)
  {
    s := Closed(digest, database, true);
    var steps :| Run(digest, database, steps) == Some([s]);
    ReceiptSafety(digest, database, steps, 0);
  }

  /** When the watcher has filled `ready`, the runner's offer ends in an empty 200 and nothing was sent. */
  lemma EmptyOkIsReachable(digest: seq<byte> -> string, database: bool) returns (s: Session)
    ensures Reachable(digest, database, s)
    ensures s.stream.Archive? && s.log.answer == Some(EmptyOk) && s.log.sent == []
  {
    ReachableIsInductive(digest, database);
    s := EmptyOkIn(digest, database, s => Reachable(digest, database, s));
  }

  lemma EmptyOkIn(digest: seq<byte> -> string, database: bool, R: Session -> bool) returns (s: Session)
    requires Inductive(digest, database, R)
    ensures R(s) && s.stream.Archive? && s.log.answer == Some(EmptyOk) && s.log.sent == []
  {
    s := Opened(digest, database, R);
    s := SessionStep(digest, database, s, Cut(Canceled)).value;
    s := SessionStep(digest, database, s, WatcherOp).value;
    s := SessionStep(digest, database, s, Offer).value;
  }

  /** The empty 200 is the only way the answer can be a 200 without a delivery: it is the offer that found `ready` full. */
  lemma EmptyOkOnlyFromFullReady(digest: seq<byte> -> string, database: bool, s: Session, a: Action)
    requires AnswerPart(s.entry, s.stream, s.runner, s.log) && SessionStep(digest, database, s, a).Some?
    requires s.log.answer.None?
    ensures SessionStep(digest, database, s, a).value.log.answer == Some(EmptyOk) <==>
            a.Offer? && s.runner == OfferReady && s.ch.ready.Some?
  {
    match ThreadOf(a)
    case RunnerOpening => OpeningAnswers(database, s, a);
    case RunnerFinishing => FinishAnswers(s, a);
    case RunnerCopying => CopyAnswers(digest, database, s, a);
    case _ =>
  }

  lemma OpeningAnswers(database: bool, s: Session, a: Action)
    requires OpeningAction(database, s, a).Some? && s.log.answer.None?
    ensures OpeningAction(database, s, a).value.log.answer == Some(EmptyOk) <==>
            a.Offer? && s.runner == OfferReady && s.ch.ready.Some?
  {
  }

  lemma FinishAnswers(s: Session, a: Action)
    requires AnswerPart(s.entry, s.stream, s.runner, s.log) && FinishAction(s, a).Some? && s.log.answer.None?
    ensures FinishAction(s, a).value.log.answer != Some(EmptyOk)
  {
  }

  lemma CopyAnswers(digest: seq<byte> -> string, database: bool, s: Session, a: Action)
    requires CopyAction(digest, database, s, a).Some?
    ensures CopyAction(digest, database, s, a).value.log.answer == s.log.answer
  {
  }
}
