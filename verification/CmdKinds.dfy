/** What an AFU command asks for, read off its fields with the numbers of common/tlx_interface_t.h and nothing of the
    engine: its kind, address and length, whether ocse accepts it, and the response its kind and outcome call for. */
module CmdKinds {
  import opened Common
  import opened TlxPacket

  datatype Kind =
    | Nop | AssignTag | FullRead | PartRead | FullWrite | PartWrite | ByteWrite
    | AmoRead | AmoSwap | AmoWrite | Signal | SignalData | Wake | Touch | Unsupported

  function KindOf(o: Byte): Kind {
    if o == 0x00 then Nop
    else if o == 0x50 then AssignTag
    else if o == 0x10 || o == 0x14 then FullRead
    else if o == 0x12 || o == 0x16 then PartRead
    else if o == 0x20 || o == 0x24 then FullWrite
    else if o == 0x30 || o == 0x34 then PartWrite
    else if o == 0x28 || o == 0x2c then ByteWrite
    else if o == 0x38 || o == 0x3c then AmoRead
    else if o == 0x40 || o == 0x44 then AmoSwap
    else if o == 0x48 || o == 0x4c then AmoWrite
    else if o == 0x58 then Signal
    else if o == 0x5a then SignalData
    else if o == 0x5c then Wake
    else if o == 0x78 || o == 0x7c then Touch
    else Unsupported
  }

  predicate Reads(k: Kind) { k in {FullRead, PartRead, AmoRead, AmoSwap} }
  predicate Writes(k: Kind) { k in {FullWrite, PartWrite, ByteWrite, AmoWrite} }
  predicate Amo(k: Kind) { k in {AmoRead, AmoSwap, AmoWrite} }

  /** Commands that bring data back are answered as reads, the other memory commands as writes; what ocse does not
      support has no response of its own and gets the code it fails with. */
  function CalledFor(k: Kind, failed: bool): Byte {
    if Reads(k) then if failed then 0x05 else 0x04
    else if Writes(k) then if failed then 0x09 else 0x08
    else if k == Touch then 0x02
    else if k == Wake then 0x10
    else if k in {Signal, SignalData} then 0x0c
    else 15
  }

  /** The first eight bytes of cmd_ea_or_obj as a little-endian uint64_t. */
  function Address(c: AfuCmd): nat {
    FromLittleEndian(c.eaOrObj[..8])
  }

  /** What pl stands for with an AMO: 2 and 3 are 4 and 8 bytes with one operand, 6 and 7 the same with two; a swap
      takes one operand with flags below 8 only, a write never two. */
  function AmoLength(c: AfuCmd): Option<nat> {
    if c.pl == 2 || c.pl == 3 then
      if KindOf(c.opcode) == AmoSwap && c.flag >= 8 then None else Some(Pow2(c.pl))
    else if c.pl == 6 || c.pl == 7 then
      if KindOf(c.opcode) == AmoWrite then None else Some(Pow2(c.pl - 4))
    else None
  }

  /** The number of bytes a command asks for, if its dl or pl stands for one. */
  function Length(c: AfuCmd): Option<nat> {
    var k := KindOf(c.opcode);
    if k in {FullRead, FullWrite} then if 1 <= c.dl <= 3 then Some(32 * Pow2(c.dl)) else None
    else if k in {PartRead, PartWrite, SignalData} then if c.pl <= 5 then Some(Pow2(c.pl)) else None
    else if k in {ByteWrite, Touch} then Some(64)
    else if Amo(k) then AmoLength(c)
    else None
  }

  /** What handle_cmd makes of a command whose actag it knows. */
  datatype Verdict = Ignored | Unknown | BadLength | Misaligned | Accepted

  function Judge(c: AfuCmd): Verdict {
    var k := KindOf(c.opcode);
    if k in {Nop, AssignTag} then Ignored
    else if k == Unsupported then Unknown
    else if k in {Signal, SignalData, Wake} then Accepted
    else if Length(c).None? then BadLength
    else if Address(c) % LengthOr1(c) != 0 then Misaligned
    else Accepted
  }

  function LengthOr1(c: AfuCmd): (n: nat)
    ensures n > 0
  {
    if Length(c).Some? && Length(c).value > 0 then Length(c).value else 1
  }

  /** dl_to_size and pl_to_size give the powers of two, or -1. */
  lemma SizesArePowers(x: Byte)
    ensures DlToSize(x) == if 1 <= x <= 3 then 32 * Pow2(x) else -1
    ensures PlToSize(x) == if x <= 5 then Pow2(x) else -1
  {
    Powers();
  }
}
