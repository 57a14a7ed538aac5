/**
 The copies that withhold the final block. Both loops read 32 KiB blocks into one buffer, keep the last
 block read in a second one, and pass a block on only after the next block has been read.
 */
module BlockCopy {
  import opened Common

  datatype ReadResult = Full | Nothing | Partial | Broken

  /** A reader: `data` is what it still yields, after which reads give end of input if `clean`, or an error. */
  class Source {
    var data: seq<byte>
    const clean: bool

    constructor (data: seq<byte>, clean: bool)
      ensures this.data == data && this.clean == clean
    {
      this.data := data;
      this.clean := clean;
    }

    /** Reads exactly `n` bytes or reports how the input ended. */
    method ReadFull(buffer: array<byte>, n: nat) returns (r: ReadResult)
      requires 0 < n <= buffer.Length
      modifies this`data, buffer
      ensures r == Full <==> n <= |old(data)|
      ensures r == Full ==> buffer[..n] == old(data)[..n] && data == old(data)[n..]
      ensures r == Nothing <==> old(data) == [] && clean
      ensures r == Partial <==> 0 < |old(data)| < n && clean
    {
      if n <= |data| {
        forall i | 0 <= i < n { buffer[i] := data[i]; }
        data := data[n..];
        return Full;
      }
      r := if !clean then Broken else if data == [] then Nothing else Partial;
      data := [];
    }

    /** One read of at most one byte; true only if it found the end of the input. */
    method AtEnd() returns (end: bool)
      modifies this`data
      ensures end <==> old(data) == [] && clean
    {
      end := data == [] && clean;
      if data != [] { data := data[1..]; }
    }
  }

  /** A writer that accepts `room` more bytes and then fails. */
  class Sink {
    var received: seq<byte>
    var room: nat

    constructor (room: nat)
      ensures received == [] && this.room == room
    {
      received := [];
      this.room := room;
    }

    method Write(buffer: array<byte>, n: nat) returns (ok: bool)
      requires n <= buffer.Length
      modifies this
      ensures ok <==> n <= old(room)
      ensures received == old(received) + buffer[..Min(n, old(room))]
      ensures room == old(room) - Min(n, old(room))
    {
      var k := Min(n, room);
      ok := n <= room;
      received := received + buffer[..k];
      room := room - k;
    }
  }

  // --- Reference: what a copy passes on, without its loop ----------------------------------------------

  /** Bytes passed on when the input ends after `size` bytes of a longer declared size. */
  function ReleasedShort(size: nat): (n: nat)
    ensures n <= size && n % 32768 == 0
  {
    Max(0, size / 32768 - 1) * 32768
  }

  function Released(bytes: nat, size: nat): (n: nat)
    ensures n <= size
  {
    if size < bytes then ReleasedShort(size) else Withheld(bytes)
  }

  /** Reading stopped at boundary `read`, whose next block the input cannot fill. */
  lemma StoppedAt(read: nat, bytes: nat, size: nat)
    requires AtBoundary(read, bytes) && read < bytes && read <= size < read + Min(BLOCK, bytes - read)
    ensures size < bytes && TailLength(read) <= read && ReleasedShort(size) == read - TailLength(read)
  {
  }

  /** A block that has been followed by a complete one is always among those passed on. */
  lemma PassedOn(read: nat, bytes: nat, size: nat)
    requires AtBoundary(read, bytes) && read < bytes && read + Min(BLOCK, bytes - read) <= size
    ensures read <= Released(bytes, size)
  {
  }

  datatype Outcome = Done | Rejected | SinkFailed | FinishFailed | InputEnded(how: ReadResult)

  /** How the read loop ends, before any check on the whole. */
  function LoopOutcome(bytes: nat, data: seq<byte>, clean: bool, room: nat): (r: Outcome) {
    if room < Released(bytes, |data|) then SinkFailed
    else if |data| >= bytes then Done
    else InputEnded(if !clean then Broken else if |data| % 32768 == 0 then Nothing else Partial)
  }

  /** Where the loop stops early, it stops as `LoopOutcome` says and with as much passed on. */
  lemma StopsEarly(read: nat, bytes: nat, data: seq<byte>, clean: bool, room: nat)
    requires AtBoundary(read, bytes) && read < bytes && read <= |data| && TailLength(read) <= read
    requires read - TailLength(read) <= room
    ensures read + Min(BLOCK, bytes - read) > |data| ==>
              && Min(room, Released(bytes, |data|)) == read - TailLength(read)
              && LoopOutcome(bytes, data, clean, room) ==
                   InputEnded(if !clean then Broken else if |data| == read then Nothing else Partial)
    ensures read + Min(BLOCK, bytes - read) <= |data| && room < read ==>
              && Min(room, Released(bytes, |data|)) == room
              && LoopOutcome(bytes, data, clean, room) == SinkFailed
  {
    if read + Min(BLOCK, bytes - read) > |data| {
      StoppedAt(read, bytes, |data|);
    } else {
      PassedOn(read, bytes, |data|);
    }
  }

  /** The verified copy: which outcome, decided in the order the checks are made. */
  function VerifiedOutcome(valid: bool, bytes: nat, data: seq<byte>, clean: bool, digestOk: bool, finishOk: bool, room: nat): (r: Outcome)
    requires valid ==> bytes >= 1
  {
    if !valid then Rejected
    else if room < Released(bytes, |data|) then SinkFailed
    else if |data| != bytes || !clean || !digestOk then Rejected
    else if !finishOk then FinishFailed
    else if room < bytes then SinkFailed
    else Done
  }

  /** How much the verified copy may pass on. */
  function VerifiedAllowance(valid: bool, bytes: nat, data: seq<byte>, clean: bool, digestOk: bool, finishOk: bool): (n: nat)
    requires valid ==> bytes >= 1
    ensures n <= |data|
  {
    if !valid then 0
    else if |data| == bytes && clean && digestOk && finishOk then bytes
    else Released(bytes, |data|)
  }

  /** Fill `tail` with the block just read. */
  method KeepTail(tail: array<byte>, buffer: array<byte>, n: nat)
    requires tail != buffer && n <= tail.Length == buffer.Length
    modifies tail
    ensures tail[..n] == buffer[..n]
  {
    forall i | 0 <= i < n { tail[i] := buffer[i]; }
  }

  /** The sink holds what was there `before` and then exactly the first `n` bytes of `data`. */
  ghost predicate Holds(dst: Sink, before: seq<byte>, room: nat, data: seq<byte>, n: nat)
    reads dst
  {
    && n <= |data|
    && n <= room
    && dst.room == room - n
    && dst.received == before + data[..n]
  }

  /** Writes the held-back block that ends at `upTo`; a sink that fails has been filled exactly. */
  method PassOn(dst: Sink, tail: array<byte>, kept: nat, ghost before: seq<byte>, ghost room: nat, ghost data: seq<byte>, ghost upTo: nat)
    returns (ok: bool)
    requires kept <= tail.Length && kept <= upTo <= |data| && tail[..kept] == data[upTo - kept..upTo]
    requires Holds(dst, before, room, data, upTo - kept)
    modifies dst
    ensures ok <==> upTo <= room
    ensures Holds(dst, before, room, data, Min(room, upTo))
  {
    ok := true;
    if kept > 0 {
      ok := dst.Write(tail, kept);
    }
    ghost var k := Min(room, upTo);
    assert tail[..k - (upTo - kept)] == data[upTo - kept..k] by {
      assert tail[..k - (upTo - kept)] == tail[..kept][..k - (upTo - kept)];
    }
    assert data[..upTo - kept] + data[upTo - kept..k] == data[..k];
  }

  /** `read` bytes read: the block that ends there is in `tail`, everything before it has been passed on. */
  ghost predicate Progress(dst: Sink, src: Source, tail: array<byte>, kept: nat, before: seq<byte>, room: nat, data: seq<byte>, read: nat)
    reads dst, src, tail
  {
    && read <= |data| && kept <= read && kept <= tail.Length
    && src.data == data[read..]
    && tail[..kept] == data[read - kept..read]
    && Holds(dst, before, room, data, read - kept)
  }

  /** One iteration: read a block, pass the previous one on, keep the new one. */
  method CopyOneBlock(dst: Sink, src: Source, buffer: array<byte>, tail: array<byte>, kept: nat, n: nat,
                      ghost before: seq<byte>, ghost room: nat, ghost data: seq<byte>, ghost read: nat)
    returns (r: Outcome)
    requires buffer != tail && buffer.Length == tail.Length && 0 < n <= buffer.Length
    requires Progress(dst, src, tail, kept, before, room, data, read)
    modifies dst, src, buffer, tail
    ensures r == Done <==> read + n <= |data| && read <= room
    ensures r == SinkFailed <==> read + n <= |data| && room < read
    ensures r == Done ==> buffer[..n] == data[read..read + n] && Progress(dst, src, tail, n, before, room, data, read + n)
    ensures r == SinkFailed ==> Holds(dst, before, room, data, room)
    ensures read + n > |data| ==>
              && Holds(dst, before, room, data, read - kept)
              && r == InputEnded(if !src.clean then Broken else if |data| == read then Nothing else Partial)
  {
    var got := src.ReadFull(buffer, n);
    if got != Full {
      return InputEnded(got);
    }
    assert buffer[..n] == data[read..read + n];
    var ok := PassOn(dst, tail, kept, before, room, data, read);
    if !ok {
      return SinkFailed;
    }
    KeepTail(tail, buffer, n);
    return Done;
  }

  /**
   The loop both copies share: reads `bytes` bytes block by block, collects them in `seen`, and passes on
   everything but the last block, which it leaves in `tail`.
   */
  method CopyBlocks(dst: Sink, src: Source, bytes: nat, tail: array<byte>) returns (r: Outcome, kept: nat, seen: seq<byte>)
    requires bytes >= 1 && tail.Length == BLOCK
    modifies dst, src, tail
    ensures var data, room := old(src.data), old(dst.room);
            && r == LoopOutcome(bytes, data, src.clean, room)
            && Holds(dst, old(dst.received), room, data, Min(room, Released(bytes, |data|)))
            && (r == Done ==> seen == data[..bytes] && kept == TailLength(bytes) &&
                              Progress(dst, src, tail, kept, old(dst.received), room, data, bytes))
  {
    ghost var data, room, before := src.data, dst.room, dst.received;
    var buffer := new byte[BLOCK];
    seen, kept := [], 0;
    var remaining := bytes;
    assert before + data[..0] == before;
    while remaining > 0
      invariant 0 <= remaining <= bytes && AtBoundary(bytes - remaining, bytes)
      invariant kept == TailLength(bytes - remaining)
      invariant Progress(dst, src, tail, kept, before, room, data, bytes - remaining)
      invariant seen == data[..bytes - remaining]
    {
      ghost var read := bytes - remaining;
      NextBoundary(read, bytes);
      var n := Min(BLOCK, remaining);
      r := CopyOneBlock(dst, src, buffer, tail, kept, n, before, room, data, read);
      if r != Done {
        StopsEarly(read, bytes, data, src.clean, room);
        return;
      }
      TakeExtends(data, read, n);
      seen, kept := seen + buffer[..n], n;
      assert seen == data[..read + n];
      remaining := remaining - n;
      assert bytes - remaining == read + n;
    }
    r := Done;
  }

  /**
   Copies a stream of `bytes` bytes and passes its last block on only after length, digest and the
   caller's `finish` check agree. `finished` reports whether `finish` was consulted.
   */
  method CopyVerified(dst: Sink, src: Source, valid: bool, bytes: nat, expected: string,
                      digest: seq<byte> -> string, finishOk: bool) returns (r: Outcome, finished: bool)
    requires valid ==> bytes >= 1
    modifies dst, src
    ensures var data := old(src.data);
            var digestOk := |data| >= bytes && digest(data[..bytes]) == expected;
            && r == VerifiedOutcome(valid, bytes, data, src.clean, digestOk, finishOk, old(dst.room))
            && dst.received == old(dst.received) +
                 data[..Min(old(dst.room), VerifiedAllowance(valid, bytes, data, src.clean, digestOk, finishOk))]
            && (finished <==> valid && |data| == bytes && src.clean && digestOk && old(dst.room) >= Withheld(bytes))
  {
    if !valid {
      return Rejected, false;
    }
    ghost var data, room, before := src.data, dst.room, dst.received;
    var tail := new byte[BLOCK];
    var kept, seen;
    r, kept, seen := CopyBlocks(dst, src, bytes, tail);
    if r != Done {
      return if r == SinkFailed then SinkFailed else Rejected, false;
    }
    var end := src.AtEnd();
    if !end || digest(seen) != expected {
      return Rejected, false;
    }
    if !finishOk {
      return FinishFailed, true;
    }
    var ok := PassOn(dst, tail, kept, before, room, data, bytes);
    return if ok then Done else SinkFailed, true;
  }

  /** The upload copy: its outcome, decided in the order the checks are made. */
  function UploadOutcome(bytes: int, max: int, data: seq<byte>, clean: bool, room: nat): (r: Outcome) {
    if bytes < 1 || bytes > max then Rejected
    else if LoopOutcome(bytes, data, clean, room) != Done then LoopOutcome(bytes, data, clean, room)
    else if |data| != bytes || !clean then Rejected
    else if room < bytes then SinkFailed
    else Done
  }

  /**
   Copies an upload of `bytes` bytes and passes its last block on only at exact end of input. A short
   input is reported by its own read error, which is a plain end of input exactly between blocks.
   */
  method CopyUpload(dst: Sink, src: Source, bytes: int, max: int) returns (r: Outcome)
    modifies dst, src
    ensures var data := old(src.data);
            && r == UploadOutcome(bytes, max, data, src.clean, old(dst.room))
            && dst.received == old(dst.received) +
                 data[..if bytes < 1 || bytes > max then 0
                        else Min(old(dst.room), if |data| == bytes && src.clean then |data| else Released(bytes, |data|))]
  {
    if bytes < 1 || bytes > max {
      return Rejected;
    }
    ghost var data, room, before := src.data, dst.room, dst.received;
    var tail := new byte[BLOCK];
    var kept, seen;
    r, kept, seen := CopyBlocks(dst, src, bytes, tail);
    if r != Done {
      return;
    }
    var end := src.AtEnd();
    if !end {
      return Rejected;
    }
    var ok := PassOn(dst, tail, kept, before, room, data, bytes);
    return if ok then Done else SinkFailed;
  }

  // --- What the copies promise ---------------------------------------------------------------------------

  /** Success and a complete destination are the same thing, and then every check has passed. */
  lemma DoneIffComplete(valid: bool, bytes: nat, data: seq<byte>, clean: bool, digestOk: bool, finishOk: bool, room: nat)
    requires valid && bytes >= 1
    ensures var r := VerifiedOutcome(valid, bytes, data, clean, digestOk, finishOk, room);
            var passed := Min(room, VerifiedAllowance(valid, bytes, data, clean, digestOk, finishOk));
            && (r == Done ==> passed == |data| == bytes && clean && digestOk && finishOk)
            && (passed >= bytes ==> r == Done)
            && (r != Done && |data| >= bytes ==> passed < bytes)
  {
  }

  /** A failed check costs exactly the final block: ((bytes - 1) mod 32768) + 1 bytes stay behind. */
  lemma FailedCheckWithholdsLastBlock(bytes: nat, data: seq<byte>, clean: bool, digestOk: bool, finishOk: bool)
    requires 1 <= bytes <= |data| && !(|data| == bytes && clean && digestOk && finishOk)
    ensures VerifiedAllowance(true, bytes, data, clean, digestOk, finishOk) + ((bytes - 1) % 32768 + 1) == bytes
  {
  }

  /** A short input passes on whole blocks only, all that were read but the last one. */
  lemma ShortInputPassesWholeBlocks(bytes: nat, data: seq<byte>, clean: bool, digestOk: bool, finishOk: bool)
    requires |data| < bytes
    ensures VerifiedAllowance(true, bytes, data, clean, digestOk, finishOk) == Max(0, |data| / 32768 - 1) * 32768
  {
  }
}
