/** Copying into a buffer, as zmemcpy does. */
module Buffers {
  import opened Bits

  method CopyIn(a: array<byte>, at: nat, bytes: seq<byte>)
    requires at + |bytes| <= a.Length
    modifies a
    ensures a[..] == old(a[..at]) + bytes + old(a[at + |bytes|..])
  {
    for i := 0 to |bytes|
      invariant a[..] == old(a[..at]) + bytes[..i] + old(a[at + i..])
    {
      a[at + i] := bytes[i];
    }
  }
}
