/** What the logger's ring and its files agree on. */
module LogFiles {

  /** The bytes of one slot: no message is stored longer. */
  const MSG_SIZE: nat := 4096

  /** The length a message is stored with. */
  function Capped(n: nat): nat {
    if n > MSG_SIZE then MSG_SIZE else n
  }

  function Stored(msg: string): string {
    msg[..Capped(|msg|)]
  }

  /** A 64-bit unsigned number read as a signed one. */
  function AsInt64(n: nat): int {
    if n < 0x8000_0000_0000_0000 then n else n - 0x1_0000_0000_0000_0000
  }

  /** Whether a flush that leaves `size` bytes in the active file closes it. The limit is an
      unsigned 64-bit number; it is compared as a signed one, and zero means no limit. */
  predicate RotationDue(limit: nat, size: nat) {
    limit != 0 && size > AsInt64(limit)
  }
}
