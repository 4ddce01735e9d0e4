/** What comes over the SSH channel of a command (section 6.10 of RFC 4254). */
module SshChannel {
  import opened Common

  datatype Message =
    | Data(data: seq<byte>)
    | ExtendedData(data: seq<byte>, ext: nat)
    | ExitStatus(status: nat)
    | ExitSignal(name: string)
    | Close
    | Other
  {
    predicate IsExit() {
      ExitStatus? || ExitSignal?
    }
  }

  /** A 32-bit unsigned status read as a signed one. */
  function AsI32(status: nat): (r: int)
    ensures -0x8000_0000 <= r < 0x8000_0000 && (r - status) % 0x1_0000_0000 == 0
  {
    var w := status % 0x1_0000_0000;
    if w < 0x8000_0000 then w else w - 0x1_0000_0000
  }
}
