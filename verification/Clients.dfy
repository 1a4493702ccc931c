/** Client slots of ocse/ocse.c (_client_associate) and the per-PASID MMIO windows they select in ocse/mmio.c. */
module Clients {
  import opened Common

  const U64_SPAN: nat := 0x1_0000_0000_0000_0000
  const U32_SPAN: nat := 0x1_0000_0000

  class Client {
    var context: int
    var pasid: int
    var open: bool

    constructor ()
      ensures !open
    {
      context, pasid, open := -1, 0, false;
    }
  }

  class Ocl {
    const client: array<Client?>

    /** The client in slot i has context and PASID i. */
    ghost predicate Valid()
      reads this, client, set c: Client | c in client[..]
    {
      forall i :: 0 <= i < client.Length && client[i] != null ==>
        client[i].context == client[i].pasid == i && client[i].open
    }

    constructor (maxClients: nat)
      ensures Valid() && client.Length == maxClients && forall i :: 0 <= i < maxClients ==> client[i] == null
      ensures fresh(client)
    {
      client := new Client?[maxClients](_ => null);
    }

    /** The slot loop of _client_associate: the first empty slot, or -1 when there is none. */
    method Associate(c: Client) returns (context: int)
      requires Valid() && !c.open
      modifies client, c
      ensures Valid() && -1 <= context < client.Length
      ensures context == -1 <==> forall i :: 0 <= i < client.Length ==> old(client[i]) != null
      ensures context >= 0 ==> old(client[context]) == null && client[..] == old(client[..])[context := c]
      ensures context >= 0 ==> forall i :: 0 <= i < context ==> old(client[i]) != null
      ensures context == -1 ==> client[..] == old(client[..])
      ensures context >= 0 ==> c.context == context
    {
      assert forall i :: 0 <= i < client.Length ==> client[i] != c;
      for i := 0 to client.Length
        invariant forall j :: 0 <= j < i ==> client[j] != null
        invariant client[..] == old(client[..]) && unchanged(c) && Valid()
      {
        if client[i] == null {
          c.context, c.pasid, c.open := i, i, true;
          client[i] := c;
          return i;
        }
      }
      context := -1;
    }

    /** The detach at the end of _ocl_loop. */
    method Release(i: nat)
      requires Valid() && i < client.Length
      modifies client
      ensures Valid() && client[..] == old(client[..])[i := null]
    {
      client[i] := null;
    }

    /** Open clients always hold distinct contexts below max_clients. */
    lemma DistinctContexts(i: nat, j: nat)
      requires Valid() && i < client.Length && j < client.Length && i != j && client[i] != null && client[j] != null
      ensures client[i].context != client[j].context
      ensures 0 <= client[i].context < client.Length && 0 <= client[j].context < client.Length
    {
    }

    /** So two open clients of one AFU never reach the same physical address with offsets below the stride, as long
        as no window starts beyond 32 bits. */
    lemma ClientsIsolated(bar0: U64, offset: U64, stride: U32, i: nat, a: U32, j: nat, b: U32)
      requires Valid() && i < client.Length && j < client.Length && i != j && client[i] != null && client[j] != null
      requires stride * (client.Length - 1) < U32_SPAN && a < stride && b < stride
      ensures 0 <= client[i].context && 0 <= client[j].context
      ensures PhysAddr(bar0, offset, stride, client[i].context, a) != PhysAddr(bar0, offset, stride,
        client[j].context, b)
    {
      WindowsDisjoint(bar0, offset, stride, client.Length, client[i].context, a, client[j].context, b);
    }
  }

  /** _add_event: bar0 + pp_mmio_offset + pp_mmio_stride * context + addr. The product is of a uint32_t and an int, so
      it wraps at 32 bits; the sum is a uint64_t. */
  function PhysAddr(bar0: U64, offset: U64, stride: U32, context: nat, addr: U32): U64 {
    (bar0 + offset + stride * context % U32_SPAN + addr) % U64_SPAN
  }

  /** Without any wrap it is the address libocxl means: base, offset, the client's window and the offset within it. */
  lemma PhysAddrMeans(bar0: U64, offset: U64, stride: U32, context: nat, addr: U32)
    requires stride * context < 0x1_0000_0000 && bar0 + offset + stride * context + addr < 0x1_0000_0000_0000_0000
    ensures PhysAddr(bar0, offset, stride, context, addr) == bar0 + offset + stride * context + addr
  {
    assert stride * context % U32_SPAN == stride * context;
  }

  lemma MulOrder(s: nat, x: nat, y: nat)
    requires x < y
    ensures s * x + s <= s * y
  {
    assert s * (x + 1) == s * x + s;
    MulMono(s, x + 1, y);
  }

  lemma StartsApart(base: nat, stride: nat, x: nat, a: nat, y: nat, b: nat)
    requires x + stride <= y < U32_SPAN && a < stride && b < stride < U32_SPAN
    ensures (base + x + a) % U64_SPAN != (base + y + b) % U64_SPAN
  {
  }

  lemma WindowsDisjoint(bar0: U64, offset: U64, stride: U32, n: nat, c: nat, a: U32, d: nat, b: U32)
    requires c < n && d < n && c != d && a < stride && b < stride && stride * (n - 1) < U32_SPAN
    ensures PhysAddr(bar0, offset, stride, c, a) != PhysAddr(bar0, offset, stride, d, b)
  {
    MulMono(stride, c, n - 1);
    MulMono(stride, d, n - 1);
    var x, y := stride * c, stride * d;
    assert x % U32_SPAN == x && y % U32_SPAN == y;
    if c < d {
      MulOrder(stride, c, d);
      StartsApart(bar0 + offset, stride, x, a, y, b);
    } else {
      MulOrder(stride, d, c);
      StartsApart(bar0 + offset, stride, y, b, x, a);
    }
  }

  /** The number of windows that start below 2^32, so the first whose start wraps. */
  function FirstWrapped(stride: U32, k: nat): (w: nat)
    requires stride > 0 && stride * k < U32_SPAN
    ensures w > k && stride * w >= U32_SPAN && stride * (w - 1) < U32_SPAN
    decreases U32_SPAN - stride * k
  {
    if stride * (k + 1) >= U32_SPAN then k + 1
    else
      MulOrder(stride, k, k + 1);
      FirstWrapped(stride, k + 1)
  }

  ghost predicate Isolated(bar0: U64, offset: U64, stride: U32, n: nat) {
    forall c: nat, a: U32, d: nat, b: U32 :: c < n && d < n && c != d && a < stride && b < stride ==>
      PhysAddr(bar0, offset, stride, c, a) != PhysAddr(bar0, offset, stride, d, b)
  }

  /** The windows of n clients are pairwise disjoint exactly when the last of them starts below 2^32. */
  lemma IsolatedExactly(bar0: U64, offset: U64, stride: U32, n: nat)
    requires n > 0
    ensures Isolated(bar0, offset, stride, n) <==> stride * (n - 1) < U32_SPAN
  {
    if stride * (n - 1) < U32_SPAN {
      forall c: nat, a: U32, d: nat, b: U32 | c < n && d < n && c != d && a < stride && b < stride
        ensures PhysAddr(bar0, offset, stride, c, a) != PhysAddr(bar0, offset, stride, d, b)
      {
        WindowsDisjoint(bar0, offset, stride, n, c, a, d, b);
      }
    } else {
      WrappedCollides(bar0, offset, stride, n);
    }
  }

  /** The first window that wraps overlaps the window of context 0. */
  lemma WrappedCollides(bar0: U64, offset: U64, stride: U32, n: nat)
    requires n > 0 && stride * (n - 1) >= U32_SPAN
    ensures !Isolated(bar0, offset, stride, n)
  {
    assert stride > 0;
    var w := FirstWrapped(stride, 0);
    if w > n - 1 {
      MulMono(stride, n - 1, w - 1);
    }
    var r: U32 := stride * w - U32_SPAN;
    assert stride * w == stride * (w - 1) + stride;
    assert r < stride && stride * w % U32_SPAN == r;
    assert PhysAddr(bar0, offset, stride, w, 0) == PhysAddr(bar0, offset, stride, 0, r);
  }
}
