/** Machine widths, big-endian byte strings and the size helpers of common/utils.c. */
module Common {

  datatype Option<+T> = None | Some(value: T)

  type Byte = x: int | 0 <= x < 0x100
  type U16 = x: int | 0 <= x < 0x1_0000
  type U32 = x: int | 0 <= x < 0x1_0000_0000
  type U64 = x: int | 0 <= x < 0x1_0000_0000_0000_0000

  const CACHELINE_BYTES: int := 64

  /** Assignments to a uint8_t counter wrap. */
  function Inc8(x: Byte): Byte { (x + 1) % 0x100 }
  function Dec8(x: Byte): Byte { (x + 0xFF) % 0x100 }

  // ---------- big-endian fields ----------

  function Pow256(k: nat): (p: nat)
    ensures p > 0
  {
    if k == 0 then 1 else 0x100 * Pow256(k - 1)
  }

  /** The low k bytes of v, most significant first. */
  function BigEndian(v: nat, k: nat): (s: seq<Byte>)
    ensures |s| == k
  {
    if k == 0 then [] else BigEndian(v / 0x100, k - 1) + [v % 0x100]
  }

  function Zeros(n: nat): (s: seq<Byte>)
    ensures |s| == n
  {
    seq(n, _ => 0)
  }

  function FromBigEndian(s: seq<Byte>): nat {
    if s == [] then 0 else FromBigEndian(s[..|s| - 1]) * 0x100 + s[|s| - 1]
  }

  lemma {:induction false} BigEndianRoundTrip(v: nat, k: nat)
    requires v < Pow256(k)
    ensures FromBigEndian(BigEndian(v, k)) == v
  {
    if k > 0 {
      BigEndianRoundTrip(v / 0x100, k - 1);
      var s := BigEndian(v, k);
      assert s[..|s| - 1] == BigEndian(v / 0x100, k - 1);
    }
  }

  /** The low k bytes of v, least significant first: what memcpy of an integer leaves. */
  function LittleEndian(v: nat, k: nat): (s: seq<Byte>)
    ensures |s| == k
  {
    if k == 0 then [] else [v % 0x100] + LittleEndian(v / 0x100, k - 1)
  }

  function FromLittleEndian(s: seq<Byte>): nat {
    if s == [] then 0 else s[0] + 0x100 * FromLittleEndian(s[1..])
  }

  lemma {:induction false} LittleEndianRoundTrip(v: nat, k: nat)
    requires v < Pow256(k)
    ensures FromLittleEndian(LittleEndian(v, k)) == v
  {
    if k > 0 {
      LittleEndianRoundTrip(v / 0x100, k - 1);
      assert LittleEndian(v, k)[1..] == LittleEndian(v / 0x100, k - 1);
    }
  }

  /** A string read from either end. */
  lemma {:induction false} Turned(s: seq<Byte>, t: seq<Byte>)
    requires |s| == |t| && forall i :: 0 <= i < |s| ==> t[i] == s[|s| - 1 - i]
    ensures FromBigEndian(t) == FromLittleEndian(s)
  {
    if s != [] {
      Turned(s[1..], t[..|t| - 1]);
    }
  }

  /** v >> (8 * k). */
  function ShiftBytes(v: nat, k: nat): nat {
    if k == 0 then v else ShiftBytes(v / 0x100, k - 1)
  }

  /** What `(v >> ((k - 1 - i) * 8)) & 0xFF` yields is byte i of the big-endian form. */
  lemma {:induction false} BigEndianByte(v: nat, k: nat, i: nat)
    requires i < k
    ensures BigEndian(v, k)[i] == ShiftBytes(v, k - 1 - i) % 0x100
  {
    if i < k - 1 {
      BigEndianByte(v / 0x100, k - 1, i);
    }
  }

  // ---------- dl and rd_cnt encodings (common/utils.c:359-498) ----------

  /** dl_to_size; -1 stands for an unsupported encoding. */
  function DlToSize(dl: int): int {
    match dl
    case 1 => 64
    case 2 => 128
    case 3 => 256
    case _ => -1
  }

  function PlToSize(pl: int): int {
    match pl
    case 0 => 1
    case 1 => 2
    case 2 => 4
    case 3 => 8
    case 4 => 16
    case 5 => 32
    case _ => -1
  }

  /** size_to_dl returns a uint8_t, so its -1 is 255. The argument is an int16_t. */
  function SizeToDl(size: int): Byte {
    match size
    case 64 => 1
    case 128 => 2
    case 256 => 3
    case _ => 255
  }

  /** decode_dl: the number of 64-byte lines a dl stands for. */
  function DecodeDl(dl: int): nat {
    match dl
    case 1 => 1
    case 2 => 2
    case 3 => 4
    case _ => 0
  }

  /** decode_rd_cnt: the number of 64-byte lines a 3-bit read count stands for. */
  function DecodeRdCnt(rdCnt: int): nat {
    match rdCnt
    case 0 => 8
    case 3 => 4
    case 4 => 3
    case _ => if 0 < rdCnt < 8 then rdCnt else 0
  }

  /** The three length helpers agree: a supported dl survives the trip through bytes, and both decodings
      describe the same number of lines. */
  lemma LengthHelpersAgree(dl: int)
    requires 1 <= dl <= 3
    ensures SizeToDl(DlToSize(dl)) == dl
    ensures DlToSize(dl) == CACHELINE_BYTES * DecodeDl(dl)
  {
  }

  /** decode_rd_cnt by its table: eight lines for 0, and 3 and 4 for one another. */
  lemma RdCntTable(rdCnt: nat)
    requires rdCnt < 8
    ensures DecodeRdCnt(rdCnt) == [8, 1, 2, 4, 3, 5, 6, 7][rdCnt]
  {
  }

  // ---------- sequences ----------

  function Opt<T>(o: Option<T>): seq<T> { if o.Some? then [o.value] else [] }

  function Flatten<T>(s: seq<seq<T>>): seq<T> {
    if s == [] then [] else s[0] + Flatten(s[1..])
  }

  lemma {:induction false} FlattenAppend<T>(a: seq<seq<T>>, b: seq<seq<T>>)
    ensures Flatten(a + b) == Flatten(a) + Flatten(b)
  {
    if a == [] {
      assert a + b == b;
    } else {
      assert (a + b)[1..] == a[1..] + b;
      FlattenAppend(a[1..], b);
    }
  }

  lemma FlattenSingle<T>(x: seq<T>)
    ensures Flatten([x]) == x
  {
  }

  // ---------- alignment ----------

  function Pow2(k: nat): (p: nat)
    ensures p > 0
  {
    if k == 0 then 1 else 2 * Pow2(k - 1)
  }

  lemma Powers()
    ensures Pow2(0) == 1 && Pow2(1) == 2 && Pow2(2) == 4 && Pow2(3) == 8 && Pow2(4) == 16
    ensures Pow2(5) == 32 && Pow2(6) == 64 && Pow2(7) == 128 && Pow2(8) == 256
  {
  }

  lemma MulMono(a: int, x: int, y: int)
    requires a >= 0 && x <= y
    ensures a * x <= a * y
  {
  }

  /** A naturally aligned access of less than 64 bytes never leaves its 64-byte line. */
  lemma PartialInLine(addr: nat, size: nat)
    requires size in {1, 2, 4, 8, 16, 32} && addr % size == 0
    ensures addr % 64 + size <= 64
  {
  }

  /** A naturally aligned access of 64 bytes or more starts at the start of a line. */
  lemma LineAligned(addr: nat, size: nat)
    requires size in {64, 128, 256} && addr % size == 0
    ensures addr % 64 == 0
  {
  }
}
