/**
 The nonblocking write loop of the archive helper. The kernel and the context are a script with one entry
 per turn of the loop; when it runs out the context is cancelled.
 */
module OwnedWrite {
  import opened Common

  datatype Errno = NoError | Interrupted | WouldBlock | OtherError

  /** One turn: whether the context had ended, what the write call returned, and whether a wait would succeed. */
  datatype Turn = Turn(canceled: bool, n: int, err: Errno, waitOk: bool)

  datatype WriteError = Nil | Closed | Invalid | Canceled | WaitFailed | KernelError | NoProgress

  const CHUNK: nat := 32768

  /** The kernel's promise that a positive count excludes an error. */
  predicate CountExcludesError(script: seq<Turn>) {
    forall i :: 0 <= i < |script| && script[i].n > 0 ==> script[i].err == NoError
  }

  /** Bytes the kernel takes in one turn of a write with `size` bytes left. */
  function Accepted(size: nat, turn: Turn): (k: nat)
    ensures k <= size
  {
    Max(0, Min(turn.n, Min(size, CHUNK)))
  }

  /** Bytes delivered of `size` under a script, and how the write ends. */
  function Deliver(size: nat, script: seq<Turn>): (r: (nat, WriteError))
    decreases |script|
  {
    if size == 0 then (0, Nil)
    else if script == [] || script[0].canceled then (0, Canceled)
    else
      var turn := script[0];
      var k := Accepted(size, turn);
      var again := Deliver(size - k, script[1..]);
      if turn.err == Interrupted || (turn.err == WouldBlock && turn.waitOk) then (k + again.0, again.1)
      else if turn.err == WouldBlock then (k, WaitFailed)
      else if turn.err == OtherError then (k, KernelError)
      else if turn.n == 0 then (k, NoProgress)
      else (k + again.0, again.1)
  }

  class OwnedStream {
    const writable: bool
    var closed: bool
    var notified: bool
    var script: seq<Turn>
    var sink: seq<byte>

    constructor (writable: bool, script: seq<Turn>)
      ensures this.writable == writable && this.script == script && sink == [] && !closed && !notified
    {
      this.writable, this.script := writable, script;
      closed, notified, sink := false, false, [];
    }

    /** One write call: the sink takes as much of the chunk as the returned count says. */
    method Call(chunk: seq<byte>, turn: Turn) returns (n: int, err: Errno)
      modifies this`sink
      ensures n == Min(turn.n, |chunk|) && err == turn.err
      ensures sink == old(sink) + chunk[..Max(0, n)]
    {
      n, err := Min(turn.n, |chunk|), turn.err;
      sink := sink + chunk[..Max(0, n)];
    }

    /** One write of what is left after `written`, cut to the chunk size. */
    method WriteChunk(p: seq<byte>, written: nat, turn: Turn) returns (n: int, err: Errno)
      requires written < |p|
      modifies this`sink
      ensures err == turn.err && Max(0, n) == Accepted(|p| - written, turn) && (n == 0 <==> turn.n == 0)
      ensures sink == old(sink) + p[written..written + Max(0, n)]
    {
      var chunk := p[written..];
      if |chunk| > CHUNK {
        chunk := chunk[..CHUNK];
      }
      n, err := Call(chunk, turn);
      assert chunk[..Max(0, n)] == p[written..written + Max(0, n)];
    }

    /** One turn of the loop: the bytes the kernel takes, and the error that ends the write, if any. */
    method TakeTurn(p: seq<byte>, written: nat, ghost was: seq<byte>) returns (now: nat, stop: WriteError)
      requires written < |p| && sink == was + p[..written]
      modifies this
      ensures closed == old(closed)
      ensures written <= now <= |p| && sink == was + p[..now]
      ensures |script| < |old(script)| || stop == Canceled
      ensures var before, after := Deliver(|p| - written, old(script)), Deliver(|p| - now, script);
              before == if stop == Nil then (now - written + after.0, after.1) else (now - written, stop)
    {
      now, stop := written, Nil;
      if script == [] || script[0].canceled {
        return now, Canceled;
      }
      var turn := script[0];
      script := script[1..];
      var n, errno := WriteChunk(p, written, turn);
      if n > 0 {
        now := now + n;
      }
      Taken(p, was, written, now - written);
      if errno == Interrupted {
        return;
      }
      if errno == WouldBlock {
        notified := true;
        return now, if turn.waitOk then Nil else WaitFailed;
      }
      if errno != NoError {
        return now, KernelError;
      }
      if n == 0 {
        return now, NoProgress;
      }
    }

    /** Writes all of `p`, or as much as the returned count says and an error. */
    method Write(p: seq<byte>) returns (written: nat, err: WriteError)
      modifies this
      ensures closed == old(closed)
      ensures written <= |p| && sink == old(sink) + p[..written]
      ensures old(closed) || !writable ==> written == 0 && err != Nil
      ensures !old(closed) && writable ==> (written, err) == Deliver(|p|, old(script))
    {
      written := 0;
      assert sink + p[..written] == sink;
      if closed {
        return 0, Closed;
      }
      if !writable {
        return 0, Invalid;
      }
      written, err := WriteAll(p);
    }

    /** The loop. */
    method WriteAll(p: seq<byte>) returns (written: nat, err: WriteError)
      modifies this
      ensures closed == old(closed)
      ensures written <= |p| && sink == old(sink) + p[..written]
      ensures (written, err) == Deliver(|p|, old(script))
    {
      written, err := 0, Nil;
      assert sink + p[..written] == sink;
      ghost var total, rest := Deliver(|p|, script), Deliver(|p|, script);
      while written < |p|
        invariant written <= |p| && sink == old(sink) + p[..written]
        invariant closed == old(closed) && err == Nil
        invariant rest == Deliver(|p| - written, script) && total == (written + rest.0, rest.1)
        decreases |script|
      {
        written, err := TakeTurn(p, written, old(sink));
        if err != Nil {
          return;
        }
        rest := Deliver(|p| - written, script);
      }
    }
  }

  /** What the sink holds after it took `k` more bytes. */
  lemma Taken(p: seq<byte>, was: seq<byte>, before: nat, k: nat)
    requires before + k <= |p|
    ensures (was + p[..before]) + p[before..before + k] == was + p[..before + k]
  {
    TakeExtends(p, before, k);
    Assoc(was, p[..before], p[before..before + k]);
  }

  // --- What the loop delivers ---------------------------------------------------------------------------------------

  /** After this turn the loop returns an error, whatever the turn delivered. */
  predicate Stops(turn: Turn) {
    turn.err == OtherError || (turn.err == WouldBlock && !turn.waitOk)
  }

  /** The turn that takes the last byte of the buffer, if the loop gets that far. */
  function Finisher(size: nat, script: seq<Turn>): (turn: Option<Turn>)
    decreases |script|
  {
    if size == 0 || script == [] || script[0].canceled then None
    else if Accepted(size, script[0]) == size then Some(script[0])
    else if Stops(script[0]) || (script[0].err == NoError && script[0].n == 0) then None
    else Finisher(size - Accepted(size, script[0]), script[1..])
  }

  /**
   No error means that everything was delivered. The converse holds exactly if the turn that takes the last
   byte, if there is one, does not itself end in an error.
   */
  lemma {:induction false} NilIffDelivered(size: nat, script: seq<Turn>)
    ensures Deliver(size, script).0 <= size
    ensures Deliver(size, script).1 == Nil ==> Deliver(size, script).0 == size
    ensures (Deliver(size, script).1 == Nil <==> Deliver(size, script).0 == size) <==>
            !(Finisher(size, script).Some? && Stops(Finisher(size, script).value))
    decreases |script|
  {
    if size > 0 && script != [] && !script[0].canceled {
      var k := Accepted(size, script[0]);
      NilIffDelivered(size - k, script[1..]);
    }
  }

  /** Under the kernel's promise an error always means that something is missing. */
  lemma ErrorMeansMissing(size: nat, script: seq<Turn>)
    requires CountExcludesError(script)
    ensures Deliver(size, script).1 == Nil <==> Deliver(size, script).0 == size
  {
    NilIffDelivered(size, script);
    if Finisher(size, script).Some? { FinisherHasCount(size, script); }
  }

  lemma {:induction false} FinisherHasCount(size: nat, script: seq<Turn>)
    requires Finisher(size, script).Some?
    ensures Finisher(size, script).value in script && Finisher(size, script).value.n > 0
    decreases |script|
  {
    if Accepted(size, script[0]) != size {
      FinisherHasCount(size - Accepted(size, script[0]), script[1..]);
    }
  }

  /** More turns never take a byte back: what a shorter script delivers, a longer one delivers too. */
  lemma {:induction false} DeliveryGrows(size: nat, script: seq<Turn>, more: seq<Turn>)
    ensures Deliver(size, script).0 <= Deliver(size, script + more).0
    decreases |script|
  {
    NilIffDelivered(size, script + more);
    if size > 0 && script != [] && !script[0].canceled {
      assert (script + more)[1..] == script[1..] + more;
      DeliveryGrows(size - Accepted(size, script[0]), script[1..], more);
    }
  }
}
