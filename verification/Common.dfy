/** Shared values: optional results, bytes, and the block arithmetic of the withheld-tail copies. */
module Common {

  datatype Option<+T> = None | Some(value: T)

  type byte = b: int | 0 <= b < 256

  /** Size of the copy buffers (32 << 10). */
  const BLOCK: nat := 32768

  /** The environment's free choice whether a system call fails. */
  method Fails() returns (fault: bool) {
    fault := *;
  }

  function Min(a: int, b: int): (m: int) {
    if a <= b then a else b
  }

  function Max(a: int, b: int): (m: int) {
    if a >= b then a else b
  }

  /** Length of the block that ends at offset `read`: the block a copy loop holds back there. */
  function TailLength(read: nat): (n: nat) {
    if read == 0 then 0 else (read - 1) % 32768 + 1
  }

  /** Bytes a copy of `bytes` bytes may release before its final checks pass. */
  function Withheld(bytes: nat): (n: nat)
    ensures n <= bytes
    ensures bytes > 0 ==> n < bytes
    ensures n % 32768 == 0
  {
    bytes - TailLength(bytes)
  }

  /** Offset `read` lies between two iterations of a loop copying `bytes` bytes. */
  predicate AtBoundary(read: nat, bytes: nat) {
    read <= bytes && (read == bytes || read % 32768 == 0)
  }

  /** One more iteration ends at a boundary again and holds back exactly the block it read. */
  lemma NextBoundary(read: nat, bytes: nat)
    requires AtBoundary(read, bytes) && read < bytes
    ensures var n := Min(BLOCK, bytes - read);
            && n > 0
            && AtBoundary(read + n, bytes)
            && TailLength(read + n) == n
            && read + n - TailLength(read + n) == read
  {
  }

  /** What a loop has released at any boundary never reaches into the final block. */
  lemma ReleasedStaysBelow(read: nat, bytes: nat)
    requires AtBoundary(read, bytes)
    ensures TailLength(read) <= read
    ensures read - TailLength(read) <= Withheld(bytes)
  {
  }

  /** Reading the next `n` bytes extends what has been passed on and held back by exactly them. */
  lemma ReadExtends(content: seq<byte>, sent: seq<byte>, held: seq<byte>, read: nat, n: nat)
    requires read + n <= |content| && sent + held == content[..read]
    ensures sent + (held + content[read..read + n]) == content[..read + n]
  {
    TakeExtends(content, read, n);
    assert sent + (held + content[read..read + n]) == (sent + held) + content[read..read + n];
  }

  /** What was passed on is a prefix of what was read. */
  lemma SentIsPrefix(content: seq<byte>, sent: seq<byte>, held: seq<byte>, read: nat)
    requires read <= |content| && sent + held == content[..read]
    ensures |sent| + |held| == read && sent <= content
  {
    assert |sent + held| == read;
    assert sent == (sent + held)[..|sent|] == content[..|sent|];
  }

  /** Moving the front of the held bytes on loses and repeats nothing. */
  lemma PassExtends(sent: seq<byte>, out: seq<byte>, next: seq<byte>, n: nat)
    requires n <= |out|
    ensures (sent + out[..n]) + (out[n..] + next) == sent + (out + next)
    ensures (sent + out[..n]) + out[n..] == sent + out
  {
    assert out[..n] + out[n..] == out;
  }

  lemma Assoc<T>(a: seq<T>, b: seq<T>, c: seq<T>)
    ensures (a + b) + c == a + (b + c)
  {
  }

  /** Taking the next `n` bytes in one piece. */
  lemma TakeExtends(data: seq<byte>, read: nat, n: nat)
    requires read + n <= |data|
    ensures data[..read] + data[read..read + n] == data[..read + n]
  {
  }

  lemma {:induction false} SubsetSize<T>(a: set<T>, b: set<T>)
    requires a <= b
    ensures |a| <= |b|
    decreases a
  {
    if a != {} {
      var x :| x in a;
      SubsetSize(a - {x}, b - {x});
    }
  }
}
