/** The response data FIFO of afu_driver/src/afu_driver.c: DATA_PKT cells linked from head to tail, filled when
    a response arrives and emptied one cell per clock while lines are due. */
module RdataFifo {
  import opened Common
  import opened TlxPacket
  import Link

  class DataPkt {
    var next: DataPkt?
    const data: Line

    constructor (data: Line)
      ensures this.data == data && next == null
    {
      this.data := data;
      next := null;
    }
  }

  class Fifo {
    var head: DataPkt?
    var tail: DataPkt?
    var rdCnt: nat
    ghost var cells: seq<DataPkt>
    ghost var freed: set<DataPkt>   // cells given back with free()

    ghost function Cells(): set<DataPkt>
      reads this
    {
      set c | c in cells
    }

    /** tail means something only while the FIFO is not empty: popping the last cell leaves it dangling. */
    ghost predicate Valid()
      reads this, cells
    {
      && (head == null <==> cells == [])
      && (cells != [] ==> head == cells[0] && tail == cells[|cells| - 1])
      && (forall i :: 0 <= i < |cells| - 1 ==> cells[i].next == cells[i + 1])
      && (cells != [] ==> cells[|cells| - 1].next == null)
      && (forall i, j :: 0 <= i < j < |cells| ==> cells[i] != cells[j])
      && (forall c :: c in cells ==> c !in freed)
    }

    ghost function Contents(): (s: seq<Line>)
      reads this, cells
      ensures |s| == |cells|
    {
      seq(|cells|, i requires 0 <= i < |cells| reads this, cells => cells[i].data)
    }

    constructor ()
      ensures Valid() && Contents() == [] && rdCnt == 0
    {
      head, tail, rdCnt, cells, freed := null, null, 0, [], {};
    }

    /** Puts one cell at the tail, which is read only when the list is not empty. */
    method Push(line: Line)
      requires Valid()
      modifies this`head, this`tail, this`cells, Cells()
      ensures Valid() && Contents() == old(Contents()) + [line]
      ensures fresh(Cells() - old(Cells()))
    {
      var pkt := new DataPkt(line);
      if head == null {
        head := pkt;
      } else {
        assert tail !in freed;
        tail.next := pkt;
      }
      tail := pkt;
      cells := cells + [pkt];
    }

    /** A response with data: one cell for each 64-byte line its dl stands for. */
    method Catch(bus: seq<Byte>, dl: Byte)
      requires Valid() && |bus| == 256
      modifies this`head, this`tail, this`cells, Cells()
      ensures Valid() && Contents() == old(Contents()) + Link.Lines(bus, if dl == 0 then 1 else DecodeDl(dl))
      ensures fresh(Cells() - old(Cells()))
    {
      var count := NewLines(dl);
      for i := 0 to count
        invariant Valid() && Contents() == old(Contents()) + Link.Lines(bus, i)
        invariant fresh(Cells() - old(Cells()))
      {
        Push(bus[64 * i..64 * (i + 1)]);
      }
    }

    /** A read request makes decode_rd_cnt more lines due. */
    method Request(rdCnt: Byte)
      requires Valid()
      modifies this`rdCnt
      ensures Valid() && Contents() == old(Contents())
      ensures this.rdCnt == old(this.rdCnt) + DecodeRdCnt(rdCnt)
    {
      this.rdCnt := this.rdCnt + DecodeRdCnt(rdCnt);
    }

    /** One due line goes to the AFU and its cell is freed. An AFU that asks for more than was delivered would
        make the driver read through a null head; the precondition is that it does not. */
    method Pop() returns (line: Option<Line>)
      requires Valid() && rdCnt <= |cells|
      modifies this
      ensures Valid()
      ensures old(rdCnt) == 0 ==> line == None && Contents() == old(Contents()) && rdCnt == 0
      ensures old(rdCnt) > 0 ==> line.Some? && old(Contents()) == [line.value] + Contents() && rdCnt == old(rdCnt) - 1
      ensures cells == if old(rdCnt) > 0 then old(cells)[1..] else old(cells)
      ensures freed == old(freed) + if old(rdCnt) > 0 then {old(cells)[0]} else {}
    {
      line := None;
      if rdCnt > 0 {
        line := Some(head.data);
        rdCnt := rdCnt - 1;
        freed := freed + {head};
        assert |cells| > 1 ==> cells[0].next == cells[1] && cells[1..][0] == cells[1];
        assert |cells| == 1 ==> cells[0].next == null && cells[1..] == [];
        head := head.next;
        cells := cells[1..];
      }
    }

    /** One driving edge of tlx_bfm, as the link model has it: the request is counted, the received response is
        cut into lines, and at most one line is driven. */
    method Tick(request: Option<Byte>, resp: Option<HostResp>, respData: Option<DataBeat>) returns (line: Option<Line>)
      requires Valid() && Link.GroupDataFits(resp, respData)
      requires rdCnt + (if request.Some? then DecodeRdCnt(request.value) else 0) <= |cells| + |Arriving(resp, respData)|
      modifies this, Cells()
      ensures Valid()
      ensures var fifo := old(Contents()) + Arriving(resp, respData);
        var due := old(rdCnt) + (if request.Some? then DecodeRdCnt(request.value) else 0);
        && Contents() == (if due > 0 then fifo[1..] else fifo)
        && line == (if due > 0 then Some(fifo[0]) else None)
        && rdCnt == (if due > 0 then due - 1 else 0)
    {
      hide DecodeRdCnt, Valid, Contents;
      if request.Some? {
        Request(request.value);
      }
      if resp.Some? && respData.Some? {
        var bus := OnBus(respData.value.bytes, DecodeDl(resp.value.dl));
        Catch(bus, resp.value.dl);
        assert Contents() == old(Contents()) + Arriving(resp, respData);
      }
      line := Pop();
    }
  }

  function NewLines(dl: Byte): (n: nat)
    ensures n <= 4
  {
    if dl == 0 then 1 else DecodeDl(dl)
  }

  /** The lines a received response adds to the FIFO in the link model. */
  function Arriving(resp: Option<HostResp>, respData: Option<DataBeat>): seq<Line>
    requires Link.GroupDataFits(resp, respData)
  {
    if resp.Some? && respData.Some? then Link.Lines(respData.value.bytes, DecodeDl(resp.value.dl)) else []
  }

  /** The 256-byte event buffer, holding the bytes received. */
  function OnBus(bytes: Payload, n: nat): (bus: seq<Byte>)
    requires n * 64 <= |bytes|
    ensures |bus| == 256 && Link.Lines(bus, n) == Link.Lines(bytes, n)
  {
    var bus := bytes + seq(256 - |bytes|, _ => 0 as Byte);
    LinesPrefix(bytes, bus, n);
    bus
  }

  /** What lies behind the received bytes on the 256-byte bus is not looked at. */
  lemma {:induction false} LinesPrefix(bytes: seq<Byte>, bus: seq<Byte>, n: nat)
    requires n * 64 <= |bytes| && bytes <= bus
    ensures Link.Lines(bytes, n) == Link.Lines(bus, n)
  {
    if n > 0 {
      LinesPrefix(bytes, bus, n - 1);
      assert bytes[(n - 1) * 64..n * 64] == bus[(n - 1) * 64..n * 64];
    }
  }

  lemma LinkCatches(d: Link.State)
    requires Link.DataFits(d.afu.host)
    ensures var c := Link.CatchResp(d);
      c.fifo == d.fifo + Arriving(d.afu.host.resp, d.afu.host.respData) && c.popped == d.popped && c.rdCnt == d.rdCnt
  {
  }

  lemma LinkDrives(c: Link.State)
    requires c.rdCnt <= |c.fifo|
    ensures var e := Link.DriveOut(c);
      && e.fifo == (if c.rdCnt > 0 then c.fifo[1..] else c.fifo)
      && e.popped == c.popped + (if c.rdCnt > 0 then [c.fifo[0]] else [])
      && e.rdCnt == (if c.rdCnt > 0 then c.rdCnt - 1 else 0)
  {
  }

  /** The link model's driving edge changes the FIFO, the lines due and the AFU's data exactly as Tick does. */
  lemma LinkTicks(d: Link.State, n: nat)
    requires Link.DataFits(d.afu.host) && d.rdCnt + n <= |Link.CatchResp(d).fifo|
    ensures var e := Link.DriveEnd(d, n);
      var fifo := d.fifo + Arriving(d.afu.host.resp, d.afu.host.respData);
      var due := d.rdCnt + n;
      && e.fifo == (if due > 0 then fifo[1..] else fifo)
      && e.popped == d.popped + (if due > 0 then [fifo[0]] else [])
      && e.rdCnt == (if due > 0 then due - 1 else 0)
  {
    var c := d.(rdCnt := d.rdCnt + n);
    LinkCatches(d);
    LinkCatches(c);
    hide Link.CatchResp, Link.DriveOut, Arriving, Link.DataFits;
    LinkDrives(Link.CatchResp(c));
  }
}
