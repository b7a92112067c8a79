/**
 The write half of `data_transfer`: once a read has filled `buffer[0..rc)`, the
 loop waits for the destination to accept output and writes the rest of the
 buffer until `wc` reaches `rc`.
 */
module Transfer {
  import opened Common

  /** What one pass of the write loop observes: the destination poll did not
      report POLLOUT, `write` returned a count, or `write` (or the poll)
      failed. */
  datatype WriteAttempt = NotReady | Wrote(count: nat) | WriteFailed

  /** How the write loop ended: the whole buffer went out, a call failed
      (the program ends through `error()`), or the attempts supplied ran out
      with bytes still pending. */
  datatype WriteEnd = Complete | Failed | Pending

  /** `write` never reports more bytes than it was asked for: every count in
      the attempts the loop consumes fits in what is still unwritten. */
  predicate WritesFit(remaining: nat, attempts: seq<WriteAttempt>)
    decreases |attempts|
  {
    if |attempts| == 0 || remaining == 0 then true
    else match attempts[0]
      case NotReady => WritesFit(remaining, attempts[1..])
      case Wrote(c) => c <= remaining && WritesFit(remaining - c, attempts[1..])
      case WriteFailed => true
  }

  /** The total of the counts `write` reported across the attempts. */
  function Offered(attempts: seq<WriteAttempt>): (total: nat)
    decreases |attempts|
  {
    if |attempts| == 0 then 0
    else Offered(attempts[..|attempts| - 1]) +
         (match attempts[|attempts| - 1] case Wrote(c) => c case _ => 0)
  }

  /** One more attempt adds its count, if any, to the total. */
  lemma OfferedSnoc(attempts: seq<WriteAttempt>, a: WriteAttempt)
    ensures Offered(attempts + [a]) == Offered(attempts) + (match a case Wrote(c) => c case _ => 0)
  {
  }

  /** Writes `buffer` (the `rc` bytes just read) by consuming `attempts` in
      order. The chunks written are consecutive pieces of the buffer: together
      they are exactly its first `wc` bytes, and `wc` never passes `rc`. */
  method WriteAll(buffer: seq<byte>, attempts: seq<WriteAttempt>)
    returns (chunks: seq<seq<byte>>, wc: nat, end: WriteEnd)
    requires 0 < |buffer| <= BUFFER_SIZE
    requires WritesFit(|buffer|, attempts)
    ensures wc <= |buffer|
    ensures Flatten(chunks) == buffer[..wc]
    ensures end == Complete <==> wc == |buffer|
    ensures end == Complete ==> Flatten(chunks) == buffer
    ensures end == Pending ==> wc < |buffer| && wc == Offered(attempts)
    ensures WriteFailed !in attempts ==> end != Failed
  {
    chunks := [];
    wc := 0;
    var k := 0;
    while wc < |buffer| && k < |attempts|
      invariant 0 <= k <= |attempts|
      invariant wc <= |buffer|
      invariant Flatten(chunks) == buffer[..wc]
      invariant WritesFit(|buffer| - wc, attempts[k..])
      invariant WriteFailed !in attempts[..k]
      invariant wc == Offered(attempts[..k])
      decreases |attempts| - k
    {
      match attempts[k] {
        case NotReady =>
        case Wrote(c) =>
          assert c <= |buffer| - wc;
          var piece := buffer[wc..wc + c];
          assert buffer[..wc + c] == buffer[..wc] + piece;
          FlattenSnoc(chunks, piece);
          chunks := chunks + [piece];
          wc := wc + c;
        case WriteFailed =>
          end := Failed;
          return;
      }
      assert attempts[..k + 1] == attempts[..k] + [attempts[k]];
      OfferedSnoc(attempts[..k], attempts[k]);
      k := k + 1;
    }
    if k == |attempts| {
      assert attempts[..k] == attempts;
    }
    end := if wc == |buffer| then Complete else Pending;
  }
}
