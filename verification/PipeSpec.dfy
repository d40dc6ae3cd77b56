/** A pipe as a bounded queue of bytes. */
module PipeSpec {
  import opened Prelude

  type Byte = int

  const PIPE_BUF_SIZE := 4096

  /** How many of `data` fit behind `buf`. */
  function Fits(buf: seq<Byte>, data: seq<Byte>): nat {
    if |buf| >= PIPE_BUF_SIZE then 0 else Min(|data|, PIPE_BUF_SIZE - |buf|)
  }
}
