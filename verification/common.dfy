/**
 Shared vocabulary of the execpty model: bytes, the fatal-error result used for
 every failing system call, the program's constants, and flattening of the
 chunks that the relay moves.
 */
module Common {

  /** One byte of terminal data. */
  type byte = b: int | 0 <= b < 256

  /** Exit status when `--help` or `--version` ran (and when no command was given). */
  const E_SUCCESS: int := 0
  /** Exit status of every system-call failure. */
  const E_ERROR: int := 127
  /** Size of the single relay buffer: one read never returns more than this. */
  const BUFFER_SIZE: nat := 4096
  /** Milliseconds the next poll waits when stdin is skipped after an empty read. */
  const EOF_TIMEOUT: int := 100

  /** A step that either succeeds or ends the program through `error()`, naming
      the failing call; every such failure exits with E_ERROR. */
  datatype Result<+T> = Ok(value: T) | SysError(call: string)

  /** Absent-or-present value (a failed `tcgetattr`, the NULL `tio` pointer). */
  datatype Option<+T> = None | Some(value: T)

  /** The bytes of a sequence of chunks, in order. */
  function Flatten(chunks: seq<seq<byte>>): (r: seq<byte>)
    decreases |chunks|
  {
    if |chunks| == 0 then [] else Flatten(chunks[..|chunks| - 1]) + chunks[|chunks| - 1]
  }

  /** Appending one chunk appends its bytes. */
  lemma FlattenSnoc(chunks: seq<seq<byte>>, piece: seq<byte>)
    ensures Flatten(chunks + [piece]) == Flatten(chunks) + piece
  {
  }
}
