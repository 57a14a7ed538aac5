/**
 The in-memory pipe that joins the two handlers of a transfer. Each end keeps the first error stored
 for it; a close stores and then signals, and the two halves of a close may interleave with other
 threads. A reader sees end of input only when its own end was never closed and the first error
 stored by the writer is `Eof`.
 */
module Pipes {
  import opened Common

  datatype Err = Eof | UnexpectedEof | Conflict | NotFound | Denied | Canceled | ClosedPipe

  datatype Pipe = Pipe(rerr: Option<Err>, werr: Option<Err>, done: bool)

  const OPEN := Pipe(None, None, false)

  datatype PipeOp = StoreRead(e: Err) | StoreWrite(e: Err) | Signal

  function Apply(p: Pipe, op: PipeOp): (r: Pipe) {
    match op
    case StoreRead(e) => if p.rerr.None? then p.(rerr := Some(e)) else p
    case StoreWrite(e) => if p.werr.None? then p.(werr := Some(e)) else p
    case Signal => p.(done := true)
  }

  /** The error a blocked or later read returns once the pipe is signalled. */
  function ReadError(p: Pipe): (e: Err) {
    if p.rerr.None? && p.werr.Some? then p.werr.value else ClosedPipe
  }

  /** The error a blocked or later write returns once the pipe is signalled. */
  function WriteError(p: Pipe): (e: Err) {
    if p.werr.None? && p.rerr.Some? then p.rerr.value else ClosedPipe
  }

  function ApplyAll(p: Pipe, ops: seq<PipeOp>): (r: Pipe)
    decreases |ops|
  {
    if ops == [] then p else ApplyAll(Apply(p, ops[0]), ops[1..])
  }

  ghost predicate FirstWriteIs(ops: seq<PipeOp>, e: Err) {
    exists i :: 0 <= i < |ops| && ops[i] == StoreWrite(e) && forall j :: 0 <= j < i ==> !ops[j].StoreWrite?
  }

  ghost predicate NeverReadClosed(ops: seq<PipeOp>) {
    forall i :: 0 <= i < |ops| ==> !ops[i].StoreRead?
  }

  lemma {:induction false} StoredErrors(p: Pipe, ops: seq<PipeOp>)
    ensures var r := ApplyAll(p, ops);
            && (p.werr.Some? ==> r.werr == p.werr)
            && (p.werr.None? ==> forall e :: r.werr == Some(e) <==> FirstWriteIs(ops, e))
            && (p.rerr.Some? ==> r.rerr == p.rerr)
            && (p.rerr.None? ==> (r.rerr.None? <==> NeverReadClosed(ops)))
    decreases |ops|
  {
    if ops != [] {
      var rest := ops[1..];
      StoredErrors(Apply(p, ops[0]), rest);
      assert ops == [ops[0]] + rest;
      assert NeverReadClosed(ops) <==> !ops[0].StoreRead? && NeverReadClosed(rest) by {
        assert forall i :: 0 <= i < |rest| ==> rest[i] == ops[i + 1];
        if !ops[0].StoreRead? && NeverReadClosed(rest) {
          forall i | 0 <= i < |ops| ensures !ops[i].StoreRead? {
            if i > 0 { assert !rest[i - 1].StoreRead?; }
          }
        }
      }
      forall e ensures FirstWriteIs(ops, e) <==>
                       ops[0] == StoreWrite(e) || (!ops[0].StoreWrite? && FirstWriteIs(rest, e)) {
        FirstWriteStep(ops, e);
      }
    }
  }

  lemma FirstWriteStep(ops: seq<PipeOp>, e: Err)
    requires ops != []
    ensures FirstWriteIs(ops, e) <==> ops[0] == StoreWrite(e) || (!ops[0].StoreWrite? && FirstWriteIs(ops[1..], e))
  {
    var rest := ops[1..];
    if FirstWriteIs(ops, e) && ops[0] != StoreWrite(e) {
      var i :| 0 <= i < |ops| && ops[i] == StoreWrite(e) && forall j :: 0 <= j < i ==> !ops[j].StoreWrite?;
      assert rest[i - 1] == StoreWrite(e) && forall j :: 0 <= j < i - 1 ==> rest[j] == ops[j + 1];
      assert !ops[0].StoreWrite?;
    }
    if !ops[0].StoreWrite? && FirstWriteIs(rest, e) {
      var i :| 0 <= i < |rest| && rest[i] == StoreWrite(e) && forall j :: 0 <= j < i ==> !rest[j].StoreWrite?;
      assert ops[i + 1] == StoreWrite(e);
      forall j | 0 <= j < i + 1 ensures !ops[j].StoreWrite? {
        if j > 0 { assert !rest[j - 1].StoreWrite?; }
      }
    }
  }

  /** Over every history of closes, end of input means: reader end untouched, first writer error `Eof`. */
  lemma EndOfInputMeaning(ops: seq<PipeOp>)
    ensures ReadError(ApplyAll(OPEN, ops)) == Eof <==> NeverReadClosed(ops) && FirstWriteIs(ops, Eof)
  {
    StoredErrors(OPEN, ops);
  }
}
