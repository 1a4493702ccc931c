/** libocxl/libocxl_lpc.c: a read or write of any length at any offset, done as a sequence of naturally aligned
    accesses of at most 256 bytes, each of which travels with a 32-bit address. */
module Lpc {
  import opened Common

  const WIRE: nat := 0x1_0000_0000
  const MAX_SIZE: nat := 0x8000_0000   // i and remainder are ints

  /** One request to ocse: mem.addr and mem.size. */
  datatype Access = Access(addr: nat, size: nat)

  // ---------- the stride ----------

  /** The stride the lowest set bit of the address allows, at most 256. */
  function LowStride(addr: nat): nat {
    if addr % 0x2 != 0 then 1
    else if addr % 0x4 != 0 then 2
    else if addr % 0x8 != 0 then 4
    else if addr % 0x10 != 0 then 8
    else if addr % 0x20 != 0 then 16
    else if addr % 0x40 != 0 then 32
    else if addr % 0x80 != 0 then 64
    else if addr % 0x100 != 0 then 128
    else 256
  }

  /** `while (stride > remainder) stride = stride / 2` */
  function Halved(stride: nat, remainder: nat): nat
    requires stride > 0 && remainder > 0
  {
    if stride <= remainder then stride else Halved(stride / 2, remainder)
  }

  /** The exponent of LowStride. */
  function LowBit(addr: nat): (k: nat)
    ensures k <= 8 && Pow2(k) == LowStride(addr)
  {
    Powers();
    if addr % 0x2 != 0 then 0
    else if addr % 0x4 != 0 then 1
    else if addr % 0x8 != 0 then 2
    else if addr % 0x10 != 0 then 3
    else if addr % 0x20 != 0 then 4
    else if addr % 0x40 != 0 then 5
    else if addr % 0x80 != 0 then 6
    else if addr % 0x100 != 0 then 7
    else 8
  }

  /** The address is aligned to its own stride and to every smaller power of two. */
  lemma {:induction false} LowStrideAligned(addr: nat, k: nat)
    requires k <= LowBit(addr)
    ensures addr % Pow2(k) == 0
  {
  }

  lemma MultipleMod(a: nat, b: nat)
    requires a > 0
    ensures (a * b) % a == 0
  {
    var q, r := (a * b) / a, (a * b) % a;
    assert r == a * (b - q);
    if b > q {
      MulMono(a, 1, b - q);
    } else if b < q {
      MulMono(a, b - q, -1);
    }
  }

  lemma StepAligns(addr: nat, p: nat)
    requires p > 0 && addr % p == 0 && addr % (2 * p) != 0
    ensures (addr + p) % (2 * p) == 0
  {
    var q := addr / p;
    assert addr == p * q;
    var r := q / 2;
    if q % 2 == 0 {
      assert p * q == (2 * p) * r by { assert q == 2 * r; }
      MultipleMod(2 * p, r);
    } else {
      assert p * q + p == (2 * p) * (r + 1) by { assert q == 2 * r + 1; }
      MultipleMod(2 * p, r + 1);
    }
  }

  lemma {:induction false} Coarser(addr: nat, k: nat, j: nat)
    requires addr % Pow2(k) == 0 && j <= k
    ensures addr % Pow2(j) == 0
  {
    if j < k {
      var q := addr / Pow2(k);
      assert addr == Pow2(k - 1) * (2 * q);
      MultipleMod(Pow2(k - 1), 2 * q);
      Coarser(addr, k - 1, j);
    }
  }

  /** Alignment to 2^k gives a stride of at least 2^k. */
  lemma AlignedLowBit(addr: nat, k: nat)
    requires k <= 8 && addr % Pow2(k) == 0
    ensures LowBit(addr) >= k
  {
    Powers();
    forall j | 0 <= j <= k ensures addr % Pow2(j) == 0 {
      Coarser(addr, k, j);
    }
    NotAlignedTwice(addr);
  }

  lemma NotAlignedTwice(addr: nat)
    ensures LowBit(addr) < 8 ==> addr % Pow2(LowBit(addr) + 1) != 0
  {
  }

  /** Past an access of its own stride an address is aligned at least twice as well. */
  lemma StrideRises(addr: nat)
    requires LowBit(addr) < 8
    ensures LowBit(addr + LowStride(addr)) > LowBit(addr)
  {
    var k := LowBit(addr);
    LowStrideAligned(addr, k);
    NotAlignedTwice(addr);
    StepAligns(addr, LowStride(addr));
    AlignedLowBit(addr + LowStride(addr), k + 1);
  }

  /** Halving gives the largest power of two that divides the stride and fits. */
  lemma {:induction false} HalvedFits(k: nat, remainder: nat) returns (j: nat)
    requires remainder > 0
    ensures j <= k && Halved(Pow2(k), remainder) == Pow2(j) <= remainder
    ensures j < k ==> remainder < 2 * Pow2(j)
  {
    if Pow2(k) <= remainder {
      j := k;
    } else {
      assert k > 0;
      j := HalvedFits(k - 1, remainder);
    }
  }

  /** The step of both loops. */
  function StrideAt(addr: nat, remainder: nat): nat
    requires remainder > 0
  {
    Halved(LowStride(addr), remainder)
  }

  lemma StrideLegal(addr: nat, remainder: nat) returns (j: nat)
    requires remainder > 0
    ensures j <= LowBit(addr) && StrideAt(addr, remainder) == Pow2(j) <= remainder && Pow2(j) <= 256
    ensures addr % Pow2(j) == 0
    ensures j < LowBit(addr) ==> remainder < 2 * Pow2(j)
  {
    j := HalvedFits(LowBit(addr), remainder);
    LowStrideAligned(addr, j);
    Powers();
  }

  lemma StrideFits(addr: nat, remainder: nat)
    requires remainder > 0
    ensures 0 < StrideAt(addr, remainder) <= remainder
  {
    var j := StrideLegal(addr, remainder);
  }

  // ---------- the sequence of accesses ----------

  /** What both loops send, from byte i on. */
  function Plan(offset: U64, i: nat, size: nat): seq<Access>
    requires i <= size
    decreases size - i
  {
    if i == size then []
    else
      StrideFits(offset + i, size - i);
      [Access(offset + i, StrideAt(offset + i, size - i))] + Plan(offset, i + StrideAt(offset + i, size - i), size)
  }

  predicate Legal(a: Access) {
    && (exists k :: 0 <= k <= 8 && a.size == Pow2(k)) && a.size <= 256
    && a.size > 0 && a.addr % a.size == 0
  }

  /** The accesses cover [from, to) in order, each starting where the one before ended. */
  predicate Covers(plan: seq<Access>, from: nat, to: nat) {
    if plan == [] then from == to else plan[0].addr == from && Covers(plan[1..], from + plan[0].size, to)
  }

  /** Every access is a naturally aligned power of two of at most 256 bytes, and together they cover exactly the
      bytes asked for, in order and without overlap. */
  lemma {:induction false} PlanCovers(offset: U64, i: nat, size: nat)
    requires i <= size
    ensures Covers(Plan(offset, i, size), offset + i, offset + size)
    ensures forall a :: a in Plan(offset, i, size) ==> Legal(a)
    decreases size - i
  {
    hide LowStride, LowBit, Halved, StrideAt, Pow2;
    if i < size {
      var j := StrideLegal(offset + i, size - i);
      var s := StrideAt(offset + i, size - i);
      var rest := Plan(offset, i + s, size);
      PlanCovers(offset, i + s, size);
      assert Plan(offset, i, size)[1..] == rest;
      assert Legal(Access(offset + i, s));
    }
  }

  /** Every access is shorter than the one before, the first shorter than bound. */
  predicate Falling(plan: seq<Access>, bound: nat) {
    plan == [] || (plan[0].size < bound && Falling(plan[1..], plan[0].size))
  }

  lemma {:induction false} FallingStrictly(plan: seq<Access>, bound: nat, a: nat, b: nat)
    requires Falling(plan, bound) && a < b < |plan|
    ensures plan[b].size < plan[a].size < bound
  {
    if a > 0 {
      FallingStrictly(plan[1..], plan[0].size, a - 1, b - 1);
    } else if b > 1 {
      FallingStrictly(plan[1..], plan[0].size, 0, b - 1);
    }
  }

  /** Once the remainder is below the alignment every access is shorter than the one before. */
  lemma {:induction false} PlanFalls(offset: U64, i: nat, size: nat, k: nat)
    requires i <= size && k <= 8 && size - i < Pow2(k) && k <= LowBit(offset + i)
    ensures |Plan(offset, i, size)| <= k && Falling(Plan(offset, i, size), Pow2(k))
    decreases size - i
  {
    if i < size {
      hide *;
      var j := StrideLegal(offset + i, size - i);
      var s := StrideAt(offset + i, size - i);
      if j >= k { PowGrows(k, j); }
      AlignedAfter(offset + i, j);
      PlanFalls(offset, i + s, size, j);
      FallsStep(offset, i, size, j, k);
    }
  }

  lemma FallsStep(offset: U64, i: nat, size: nat, j: nat, k: nat)
    requires i < size && j < k && StrideAt(offset + i, size - i) == Pow2(j) <= size - i
    requires var rest := Plan(offset, i + Pow2(j), size); |rest| <= j && Falling(rest, Pow2(j))
    ensures |Plan(offset, i, size)| <= k && Falling(Plan(offset, i, size), Pow2(k))
  {
    hide *;
    PlanStep(offset, i, size);
    PowRises(j, k);
    FallingCons(Access(offset + i, Pow2(j)), Plan(offset, i + Pow2(j), size), Pow2(k));
  }

  lemma PlanStep(offset: U64, i: nat, size: nat)
    requires i < size
    ensures 0 < StrideAt(offset + i, size - i) <= size - i
    ensures Plan(offset, i, size)
      == [Access(offset + i, StrideAt(offset + i, size - i))] + Plan(offset, i + StrideAt(offset + i, size - i), size)
  {
    StrideFits(offset + i, size - i);
  }

  lemma PowRises(j: nat, k: nat)
    requires j < k
    ensures Pow2(j) < Pow2(k)
  {
    PowGrows(j + 1, k);
  }

  lemma FallingCons(a: Access, plan: seq<Access>, bound: nat)
    requires a.size < bound && Falling(plan, a.size)
    ensures Falling([a] + plan, bound)
  {
    assert ([a] + plan)[1..] == plan;
  }

  lemma {:induction false} PowGrows(k: nat, j: nat)
    requires k <= j
    ensures Pow2(k) <= Pow2(j)
  {
    if k < j {
      PowGrows(k, j - 1);
    }
  }

  lemma NextMultiple(addr: nat, p: nat)
    requires p > 0 && addr % p == 0
    ensures (addr + p) % p == 0
  {
    var q := addr / p;
    assert addr == p * q;
    assert p * (q + 1) == addr + p;
    MultipleMod(p, q + 1);
  }

  lemma AlignedAfter(addr: nat, j: nat)
    requires j <= 8 && addr % Pow2(j) == 0
    ensures LowBit(addr + Pow2(j)) >= j
  {
    hide *;
    NextMultiple(addr, Pow2(j));
    AlignedLowBit(addr + Pow2(j), j);
  }

  /** Strides rise through at most 8 values, stay at 256, then fall through at most 8. */
  lemma {:induction false} PlanCount(offset: U64, i: nat, size: nat)
    requires i <= size
    ensures |Plan(offset, i, size)| <= (size - i) / 256 + 16 - LowBit(offset + i)
    decreases size - i
  {
    hide LowStride, LowBit, Halved, StrideAt, Pow2;
    if i < size {
      var k := LowBit(offset + i);
      var j := StrideLegal(offset + i, size - i);
      Powers();
      var s := StrideAt(offset + i, size - i);
      if j < k {
        PowGrows(j + 1, k);
        PlanFalls(offset, i, size, j + 1);
      } else {
        PlanCount(offset, i + s, size);
        if k < 8 {
          StrideRises(offset + i);
          assert (size - i - s) / 256 <= (size - i) / 256;
        } else {
          AlignedAfter(offset + i, 8);
          assert (size - i - 256) / 256 == (size - i) / 256 - 1;
        }
      }
    }
  }

  lemma AccessBound(offset: U64, size: nat)
    ensures |Plan(offset, 0, size)| <= size / 256 + 16
  {
    PlanCount(offset, 0, size);
  }

  // ---------- what the accesses do ----------

  /** `uint32_t offset = htonl(afu->mem.addr)`: the address that reaches the AFU. */
  function Wire(addr: nat): nat { addr % WIRE }

  /** How far an address on the wire lies past the start of the transfer, around the 32-bit wrap. */
  function Distance(offset: nat, w: nat): nat { (w - offset) % WIRE }

  /** Memory after val was written at offset: every byte lands at its own address modulo 2^32, and no other
      byte changes. */
  ghost predicate Written(before: seq<Byte>, after: seq<Byte>, offset: nat, val: seq<Byte>) {
    && |after| == |before| == WIRE
    && forall w :: 0 <= w < WIRE ==>
         after[w] == if Distance(offset, w) < |val| then val[Distance(offset, w)] else before[w]
  }

  lemma DistanceFrom(offset: nat, i: nat, w: nat)
    requires i < WIRE && w < WIRE
    ensures Distance(offset, w) == (w - Wire(offset + i) + i) % WIRE
    ensures w >= Wire(offset + i) && w - Wire(offset + i) + i < WIRE ==> Distance(offset, w) == w - Wire(offset + i) + i
  {
  }

  lemma MulDistribute(s: nat, n: nat, p: nat, x: nat)
    ensures s * x - (s * n) * p == s * (x - n * p)
  {
  }

  /** An aligned access never crosses the end of the 32-bit space. */
  lemma AlignedInWire(addr: nat, s: nat, n: nat)
    requires s > 0 && addr % s == 0 && WIRE == s * n
    ensures Wire(addr) + s <= WIRE
  {
    var p, x := addr / WIRE, addr / s;
    assert addr == WIRE * p + Wire(addr) && addr == s * x;
    MulDistribute(s, n, p, x);
    var y := x - n * p;
    assert Wire(addr) == s * y;
    if y > n - 1 {
      MulMono(s, n, y);
    } else {
      MulMono(s, y, n - 1);
    }
  }

  lemma LegalInWire(addr: nat, j: nat)
    requires j <= 8 && addr % Pow2(j) == 0
    ensures Wire(addr) + Pow2(j) <= WIRE
  {
    Powers();
    var n := WIRE / Pow2(j);
    assert WIRE == Pow2(j) * n;
    hide Pow2;
    AlignedInWire(addr, Pow2(j), n);
  }

  lemma WriteStep(m0: seq<Byte>, m1: seq<Byte>, m2: seq<Byte>, offset: nat, val: seq<Byte>, i: nat, s: nat)
    requires i + s <= |val| < WIRE && Written(m0, m1, offset, val[..i])
    requires var a := Wire(offset + i); a + s <= WIRE && m2 == m1[..a] + val[i..i + s] + m1[a + s..]
    ensures Written(m0, m2, offset, val[..i + s])
  {
    var a := Wire(offset + i);
    forall w | 0 <= w < WIRE
      ensures m2[w] == if Distance(offset, w) < i + s then val[Distance(offset, w)] else m0[w]
    {
      DistanceFrom(offset, i, w);
      var d := Distance(offset, w);
      hide Distance;
      if a <= w < a + s {
        assert d == w - a + i;
      } else {
        assert m2[w] == m1[w];
        OutsideStep(a, w, i, s);
      }
    }
  }

  lemma OutsideStep(a: nat, w: nat, i: nat, s: nat)
    requires a < WIRE && w < WIRE && i + s < WIRE && a + s <= WIRE && !(a <= w < a + s)
    ensures !(i <= (w - a + i) % WIRE < i + s)
  {
  }

  /** Bytes [0, i) of a read. */
  ghost predicate ReadSoFar(memory: seq<Byte>, offset: nat, out: seq<Byte>) {
    |memory| == WIRE && forall k :: 0 <= k < |out| ==> out[k] == memory[Wire(offset + k)]
  }

  lemma ReadStep(memory: seq<Byte>, offset: nat, out: seq<Byte>, s: nat)
    requires ReadSoFar(memory, offset, out) && Wire(offset + |out|) + s <= WIRE
    ensures var a := Wire(offset + |out|); ReadSoFar(memory, offset, out + memory[a..a + s])
  {
  }

  lemma WrittenNothing(memory: seq<Byte>, offset: nat)
    requires |memory| == WIRE
    ensures Written(memory, memory, offset, [])
  {
  }

  lemma ReadNothing(memory: seq<Byte>, offset: nat)
    requires |memory| == WIRE
    ensures ReadSoFar(memory, offset, [])
  {
  }

  lemma PlanEnds(offset: U64, size: nat)
    ensures Plan(offset, size, size) == []
  {
  }

  /** The next access of the plan, and that it stays inside the wire's address space. */
  lemma StepLegal(offset: U64, i: nat, size: nat, before: seq<Access>)
    requires i < size
    ensures 0 < StrideAt(offset + i, size - i) <= size - i && Wire(offset + i) + StrideAt(offset + i, size - i) <= WIRE
    ensures before + Plan(offset, i, size)
      == before + [Access(offset + i, StrideAt(offset + i, size - i))] + Plan(offset,
          i + StrideAt(offset + i, size - i), size)
  {
    var j := StrideLegal(offset + i, size - i);
    LegalInWire(offset + i, j);
    hide StrideAt, Wire;
  }

  /** struct ocxl_afu as far as LPC goes, with the memory behind its AFU and the accesses made so far. */
  class LpcAfu {
    var lpcMapped: bool
    var memory: seq<Byte>
    ghost var accesses: seq<Access>

    ghost predicate Valid()
      reads this
    {
      |memory| == WIRE
    }

    constructor (lpcMapped: bool, memory: seq<Byte>)
      requires |memory| == WIRE
      ensures Valid() && this.lpcMapped == lpcMapped && this.memory == memory && accesses == []
    {
      this.lpcMapped, this.memory, accesses := lpcMapped, memory, [];
    }

    /** The chain of mask tests and the halving loop. */
    static method Stride(toI: nat, remainder: nat) returns (stride: nat)
      requires remainder > 0
      ensures stride == StrideAt(toI, remainder)
    {
      if toI % 0x2 != 0 {
        stride := 1;
      } else if toI % 0x4 != 0 {
        stride := 2;
      } else if toI % 0x8 != 0 {
        stride := 4;
      } else if toI % 0x10 != 0 {
        stride := 8;
      } else if toI % 0x20 != 0 {
        stride := 16;
      } else if toI % 0x40 != 0 {
        stride := 32;
      } else if toI % 0x80 != 0 {
        stride := 64;
      } else if toI % 0x100 != 0 {
        stride := 128;
      } else {
        stride := 256;
      }
      while stride > remainder
        invariant stride > 0 && Halved(stride, remainder) == StrideAt(toI, remainder)
      {
        stride := stride / 2;
      }
    }

    /** One request of the write loop: the stride, and the bytes the AFU stores for it. */
    method WriteOne(offset: U64, val: seq<Byte>, i: nat, ghost before: seq<Byte>) returns (stride: nat)
      requires |memory| == WIRE && i < |val| < MAX_SIZE && Written(before, memory, offset, val[..i])
      modifies this`memory, this`accesses
      ensures |memory| == WIRE && 0 < stride <= |val| - i && Written(before, memory, offset, val[..i + stride])
      ensures accesses + Plan(offset, i + stride, |val|) == old(accesses) + Plan(offset, i, |val|)
    {
      hide Written, Plan, StrideAt, Wire, Halved, LowStride;
      StepLegal(offset, i, |val|, accesses);
      stride := Stride(offset + i, |val| - i);
      var a := Wire(offset + i);
      memory := memory[..a] + val[i..i + stride] + memory[a + stride..];
      WriteStep(before, old(memory), memory, offset, val, i, stride);
      accesses := accesses + [Access(offset + i, stride)];
    }

    /** ocxl_lpc_write. */
    method Write(offset: U64, val: seq<Byte>) returns (rc: int)
      requires Valid() && |val| < MAX_SIZE
      modifies this`memory, this`accesses
      ensures Valid()
      ensures !lpcMapped ==> rc == -1 && memory == old(memory) && accesses == old(accesses)
      ensures lpcMapped ==> rc == 0 && Written(old(memory), memory, offset, val)
      ensures lpcMapped ==> accesses == old(accesses) + Plan(offset, 0, |val|)
    {
      if !lpcMapped {
        return -1;
      }
      WrittenNothing(memory, offset);
      assert val[..0] == [];
      hide *;
      var i := 0;
      while i < |val|
        invariant |memory| == WIRE && i <= |val|
        invariant Written(old(memory), memory, offset, val[..i])
        invariant accesses + Plan(offset, i, |val|) == old(accesses) + Plan(offset, 0, |val|)
      {
        var stride := WriteOne(offset, val, i, old(memory));
        i := i + stride;
      }
      PlanEnds(offset, |val|);
      assert val[..i] == val;
      rc := 0;
    }

    /** One request of the read loop: the stride, and the bytes the AFU answers. */
    method ReadOne(offset: U64, i: nat, size: nat, ghost out: seq<Byte>) returns (stride: nat, bytes: seq<Byte>)
      requires |memory| == WIRE && i < size < MAX_SIZE && |out| == i && ReadSoFar(memory, offset, out)
      modifies this`accesses
      ensures 0 < stride <= size - i && |bytes| == stride && ReadSoFar(memory, offset, out + bytes)
      ensures accesses + Plan(offset, i + stride, size) == old(accesses) + Plan(offset, i, size)
    {
      hide ReadSoFar, Plan, StrideAt, Wire, Halved, LowStride;
      StepLegal(offset, i, size, accesses);
      stride := Stride(offset + i, size - i);
      var a := Wire(offset + i);
      ReadStep(memory, offset, out, stride);
      bytes := memory[a..a + stride];
      accesses := accesses + [Access(offset + i, stride)];
    }

    /** ocxl_lpc_read: each answer is copied to out + i. */
    method Read(offset: U64, size: nat) returns (rc: int, out: seq<Byte>)
      requires Valid() && size < MAX_SIZE
      modifies this`accesses
      ensures !lpcMapped ==> rc == -1 && out == [] && accesses == old(accesses)
      ensures lpcMapped ==> rc == 0 && |out| == size && ReadSoFar(memory, offset, out)
      ensures lpcMapped ==> accesses == old(accesses) + Plan(offset, 0, size)
    {
      out := [];
      if !lpcMapped {
        return -1, [];
      }
      ReadNothing(memory, offset);
      hide *;
      var i := 0;
      while i < size
        invariant |memory| == WIRE && i == |out| <= size && ReadSoFar(memory, offset, out)
        invariant accesses + Plan(offset, i, size) == old(accesses) + Plan(offset, 0, size)
      {
        var stride, bytes := ReadOne(offset, i, size, out);
        out := out + bytes;
        i := i + stride;
      }
      PlanEnds(offset, size);
      rc := 0;
    }
  }

  // ---------- what a caller sees ----------

  /** Reading back what was written gives it unchanged, at any offset. */
  lemma ReadAfterWrite(before: seq<Byte>, after: seq<Byte>, offset: U64, val: seq<Byte>, out: seq<Byte>)
    requires |val| < MAX_SIZE && Written(before, after, offset, val) && ReadSoFar(after, offset, out) && |out| == |val|
    ensures out == val
  {
  }

  /** One copy of [offset, offset + size), all other bytes unchanged. */
  ghost predicate OneCopy(before: seq<Byte>, after: seq<Byte>, offset: nat, val: seq<Byte>) {
    |before| == |after| && offset + |val| <= |before| && after == before[..offset] + val + before[offset + |val|..]
  }

  /** A transfer acts as one copy when it stays inside the 32-bit space its addresses travel in. */
  lemma CopyInside(before: seq<Byte>, after: seq<Byte>, offset: nat, val: seq<Byte>)
    requires Written(before, after, offset, val) && offset + |val| <= WIRE
    ensures OneCopy(before, after, offset, val)
  {
  }

  /** A byte whose address does not fit 32 bits is written at an address outside the range asked for. */
  lemma StraysOutside(before: seq<Byte>, after: seq<Byte>, offset: nat, val: seq<Byte>, k: nat)
    requires Written(before, after, offset, val) && k < |val| < MAX_SIZE
      && offset + k == (if offset < WIRE then WIRE else offset)
    ensures after[Wire(offset + k)] == val[k] && !(offset <= Wire(offset + k) < offset + |val|)
  {
  }

  predicate AddressedAt(offset: nat, k: nat) { Wire(offset + k) == offset + k }

  /** The exact condition: every byte of a transfer goes to the address asked for if and only if the transfer is
      empty or ends within the first 2^32 bytes. */
  lemma AddressedExactly(offset: nat, size: nat)
    ensures (forall k :: 0 <= k < size ==> AddressedAt(offset, k)) <==> (size == 0 || offset + size <= WIRE)
  {
    if size > 0 {
      assert AddressedAt(offset, size - 1) <==> offset + size <= WIRE;
    }
  }
}
