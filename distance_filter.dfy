/** Whether an indel starts far enough inside its read to be trusted. */
module DistanceFilter {
  import opened Alignment

  const MinDistanceFromReadEnd: nat := 3

  /** Bases between read index idx and the nearer of the read's first and last base. */
  function DistanceFromReadEnd(readLength: int, idx: int): int {
    if idx <= readLength - 1 - idx then idx else readLength - 1 - idx
  }

  /** The indel at readIdx lies at least MinDistanceFromReadEnd bases from both read ends. */
  function SufficientDistanceFromReadEnd(read: Read, readIdx: int): (ok: bool)
    ensures ok <==> DistanceFromReadEnd(read.readLength, readIdx) >= MinDistanceFromReadEnd
  {
    readIdx >= MinDistanceFromReadEnd && readIdx <= read.readLength - MinDistanceFromReadEnd - 1
  }

  /** A read shorter than 7 bases never passes: the window of trusted offsets is empty. */
  lemma ShortReadNeverPasses(read: Read, readIdx: int)
    requires read.readLength < 2 * MinDistanceFromReadEnd + 1
    ensures !SufficientDistanceFromReadEnd(read, readIdx)
  {
  }

  /** For a read of length 30 the trusted offsets are 3 to 26. */
  lemma DistanceBoundariesAt30(read: Read)
    requires read.readLength == 30
    ensures SufficientDistanceFromReadEnd(read, 3) && SufficientDistanceFromReadEnd(read, 26)
    ensures !SufficientDistanceFromReadEnd(read, 2) && !SufficientDistanceFromReadEnd(read, 27)
  {
  }
}
