/** The host request engine of ocse/mmio.c: a FIFO of configuration, MMIO and LPC requests of which only the head is
    ever in flight, and the assembly of read data from 64-byte beats. */
module Mmio {
  import opened Common
  import opened TlxPacket
  import E = TlxEvent
  import TlxInterface

  /** What a response tells the request: dl and dp of a memory response, the word of a configuration one. */
  datatype Response = Response(opcode: Byte, code: Byte, dl: Byte, dp: Byte, word: Bus4)

  function MemoryResponse(r: AfuResp): Response {
    Response(r.opcode, r.code, r.dl, r.dp, Zeros(4))
  }

  /** A configuration response without data reads as 0. */
  function ConfigResponse(r: E.CfgRead): Response {
    Response(r.opcode, r.code, 0, 0, if r.data.Some? then r.data.value.bus else Zeros(4))
  }

  datatype MmioState = Idle | Pending | Buffer | Done

  // ---------- what is sent for a request ----------

  /** A register access has size 0 and is 4 or 8 bytes; an LPC access is a power of two from 1 to 256 bytes. */
  predicate ValidSize(size: nat) { size in {0, 1, 2, 4, 8, 16, 32, 64, 128, 256} }

  function CmdBytes(size: nat, dw: bool): nat {
    if size > 0 then size else if dw then 8 else 4
  }

  function DlOf(size: nat): Byte {
    match size
    case 64 => 1
    case 128 => 2
    case 256 => 3
    case _ => 0
  }

  function PlOf(size: nat, dw: bool): Byte {
    match size
    case 0 => if dw then 3 else 2
    case 2 => 1
    case 4 => 2
    case 8 => 3
    case 16 => 4
    case 32 => 5
    case _ => 0
  }

  /** A partial write's bytes at their place in a 64-byte line. */
  function Placed(pa: U64, data: seq<Byte>): (s: seq<Byte>)
    requires pa % 64 + |data| <= 64
    ensures |s| == 64 && s[pa % 64..pa % 64 + |data|] == data
  {
    Zeros(pa % 64) + data + Zeros(64 - pa % 64 - |data|)
  }

  /** The request the AFU should see: opcode and tag by kind, length by size. */
  function CommandFor(rnw: bool, size: nat, dw: bool, pa: U64, be: Option<U64>): HostCmd {
    var full := CmdBytes(size, dw) >= 64;
    var opcode: Byte :=
      if rnw then (if full then 0x20 else 0x28) else if !full then 0x86 else if be.None? then 0x81 else 0x82;
    var tag: U16 :=
      if rnw then (if full then 0xefac else 0xcafe) else if !full then 0xbead else if be.None? then 0xdaeb else 0xbebe;
    HostCmd(opcode, tag, DlOf(size), PlOf(size, dw), if !rnw && full && be.Some? then be.value else 0, 0, pa)
  }

  // ---------- when a memory read is done ----------

  /** How far a memory read has come. */
  datatype Reading = Reading(size: nat, beats: nat, state: MmioState, opcode: Byte)

  /** The response to it, whatever its opcode says, makes it wait for data. */
  function AfterResponse(r: Reading, opcode: Byte): Reading {
    if r.state == Pending then r.(state := Buffer, opcode := opcode) else r
  }

  /** One pass of handle_ap_resp_data, with or without a beat. */
  function AfterPass(r: Reading, came: bool): Reading {
    if r.state != Buffer || !came then r
    else if r.size < 64 || 64 * (r.beats + 1) == r.size then r.(beats := r.beats + 1, state := Done)
    else r.(beats := r.beats + 1)
  }

  lemma NoPass(r: Reading)
    ensures AfterPass(r, false) == r && (r.state != Buffer ==> AfterPass(r, true) == r)
  {
  }

  function AfterPasses(r: Reading, came: seq<bool>): Reading {
    if came == [] then r else AfterPass(AfterPasses(r, came[..|came| - 1]), came[|came| - 1])
  }

  function BeatsIn(came: seq<bool>): nat {
    if came == [] then 0 else BeatsIn(came[..|came| - 1]) + (if came[|came| - 1] then 1 else 0)
  }

  function BeatsOf(size: nat): nat {
    if size < 64 then 1 else size / 64
  }

  /** Over any number of passes a read that has been answered is done, and so off the list, if and only if all the beats
      of its size have come; what the response said makes no difference. */
  lemma {:induction false} ReadDoneExactly(size: nat, opcode: Byte, came: seq<bool>)
    requires ValidSize(size)
    ensures var r := AfterPasses(AfterResponse(Reading(size, 0, Pending, 0), opcode), came);
      && (r.state == Done <==> BeatsIn(came) >= BeatsOf(size))
      && (r.state != Done ==> r == Reading(size, BeatsIn(came), Buffer, opcode))
  {
    if came != [] {
      ReadDoneExactly(size, opcode, came[..|came| - 1]);
    }
  }

  /** The failing input: a read the AFU fails with mem_rd_fail and no data waits for ever. */
  lemma {:induction false} FailedReadWaits(size: nat, came: seq<bool>)
    requires ValidSize(size) && forall i :: 0 <= i < |came| ==> !came[i]
    ensures AfterPasses(AfterResponse(Reading(size, 0, Pending, 0), 0x02), came) == Reading(size, 0, Buffer, 0x02)
  {
    if came != [] {
      FailedReadWaits(size, came[..|came| - 1]);
    }
  }

  class MmioEvent {
    const cfg: bool
    const rnw: bool
    const dw: bool
    const size: nat
    const cmdPA: U64
    const be: Option<U64>
    var cmdData: seq<Byte>     // uint64_t cmd_data as its eight bytes
    var data: seq<Byte>
    var state: MmioState
    var cmdDL: Byte
    var respDL: Byte
    var respDP: Byte
    var respCode: Byte
    var respOpcode: Byte
    var partialIndex: nat
    var sizeReceived: nat
    ghost var beats: seq<Line>   // beats copied since the response came

    /** What libocxl checks before it asks: sizes and alignment. */
    ghost predicate WellFormed()
      reads this
    {
      && ValidSize(size) && |cmdData| == 8
      && (size > 0 ==> !cfg && |data| == size)
      && (!cfg ==> cmdPA % CmdBytes(size, dw) == 0)
      && (be.Some? ==> size == 64)
    }

    /** A read being assembled: the counters agree, and the buffer starts with the beats so far. */
    ghost predicate Assembling()
      reads this
    {
      && rnw && !cfg
      && (size >= 64 ==>
            && partialIndex == sizeReceived == 64 * |beats| < size == |data|
            && data[..partialIndex] == Flatten(beats)
            && respDL == DlOf(size) && respDP == 0)
      && (size < 64 ==> beats == [])
    }

    /** A memory read that is done holds what the AFU sent: its beats, or their part of the one line. */
    ghost predicate Filled()
      reads this
    {
      rnw && !cfg ==>
        if size >= 64 then 64 * |beats| == size && data == Flatten(beats)
        else |beats| == 1 && ShortRead(beats[0])
    }

    ghost function Progress(): Reading
      reads this
    {
      Reading(size, |beats|, state, respOpcode)
    }

    predicate Failed()
      reads this
    {
      respOpcode in {0x02, 0x04} && respCode != 0
    }

    /** The data of an acknowledgement: a register's value most significant byte first, LPC data as it is. */
    ghost function ReadBytes(): seq<Byte>
      requires WellFormed()
      reads this
    {
      if !rnw || Failed() then []
      else if size > 0 then data
      else Reversed(cmdData[..CmdBytes(size, dw)])
    }

    /** A register's value in an acknowledgement is the number its bytes hold in memory. */
    lemma RegisterValue()
      requires WellFormed() && rnw && size == 0 && !Failed()
      ensures var n := if dw then 8 else 4;
        |ReadBytes()| == n && FromBigEndian(ReadBytes()) == FromLittleEndian(cmdData[..n])
    {
      Turned(cmdData[..CmdBytes(size, dw)], ReadBytes());
    }

    /** Not sent yet, and nothing received. */
    ghost predicate Waiting()
      reads this
    {
      state == Idle && sizeReceived == 0 && beats == []
    }

    /** A response to this request is complete: its dL is the one asked for, its dP 0. */
    predicate CompleteResponse(dl: Byte, dp: Byte)
    {
      size >= 64 ==> dl == DlOf(size) && dp == 0
    }

    constructor (cfg: bool, rnw: bool, dw: bool, size: nat, cmdPA: U64, be: Option<U64>, cmdData: seq<Byte>,
        data: seq<Byte>)
      requires ValidSize(size) && |cmdData| == 8 && (size > 0 ==> !cfg && |data| == size)
      requires (!cfg ==> cmdPA % CmdBytes(size, dw) == 0) && (be.Some? ==> size == 64)
      ensures WellFormed() && state == Idle && beats == [] && sizeReceived == 0
      ensures this.cfg == cfg && this.rnw == rnw && this.size == size && this.cmdPA == cmdPA && this.data == data
      ensures this.dw == dw && this.be == be && this.cmdData == cmdData
    {
      this.cfg, this.rnw, this.dw, this.size, this.cmdPA, this.be := cfg, rnw, dw, size, cmdPA, be;
      this.cmdData, this.data := cmdData, data;
      state, sizeReceived, partialIndex, beats := Idle, 0, 0, [];
      cmdDL, respDL, respDP, respCode, respOpcode := 0, 0, 0, 0, 0;
    }

    /** What the link was asked for this request: the command, and for a write its data where the AFU expects it.
        held is what was on the configuration data bus. */
    ghost predicate Requested(before: E.Event, held: E.CfgBus, rc: E.Rc, after: E.Event)
      reads this
    {
      if cfg then |cmdData| == 8 && (rc, after) == E.SendCfg(before, ConfigFor(rnw, cmdPA, cmdData), held)
      else
        && (!rnw ==> Writable(size, dw, cmdPA, cmdData, data))
        && (rc, after) == E.SendCmd(before, CommandFor(rnw, size, dw, cmdPA, be),
             if rnw then None else Some(DataBeat(0, WriteData(size, dw, cmdPA, cmdData, data))))
    }

    /** A configuration command for the request: four bytes at its address, under the tag of its kind; a write's bytes
        start at the address within the word, zeros before them. */
    ghost predicate CarriedCfg(held: E.CfgBus, c: CfgCmd)
      reads this
    {
      && |cmdData| == 8
      && c.opcode == (if rnw then 0xe0 else 0xe1) && c.capptag == (if rnw then 0xdead else 0xbeef)
      && c.pa == cmdPA && c.t == 0 && c.pl == 2
      && (rnw ==> c.bdi == held.bdi && c.bus == held.bus)
      && (!rnw ==> c.bdi == 0 && forall k :: 0 <= k < 4 ==>
            c.bus[k] == if k < cmdPA % 4 then 0 else cmdData[k - cmdPA % 4])
    }

    /** A memory command for the request: its opcode and tag say what kind it is, and dl or pl stands for its length. */
    ghost predicate CarriedCmd(c: HostCmd)
      reads this
    {
      var n: int := if size > 0 then size else if dw then 8 else 4;
      && c.opcode == (if rnw then (if n < 64 then 0x28 else 0x20)
                      else if n < 64 then 0x86 else if be.None? then 0x81 else 0x82)
      && c.capptag == (if rnw then (if n < 64 then 0xcafe else 0xefac)
                       else if n < 64 then 0xbead else if be.None? then 0xdaeb else 0xbebe)
      && c.pa == cmdPA && c.end == 0 && c.be == (if !rnw && be.Some? then be.value else 0)
      && (n < 64 ==> c.dl == 0 && c.pl <= 5 && Pow2(c.pl) == n)
      && (n >= 64 ==> c.pl == 0 && 1 <= c.dl <= 3 && 32 * Pow2(c.dl) == n)
    }

    /** The data of a write: less than a line at its place in a line of zeros, a line or more as it is. */
    ghost predicate CarriedData(b: DataBeat)
      reads this
    {
      var own, at := if size > 0 then data else cmdData, cmdPA % 64;
      var n: int := if size > 0 then size else if dw then 8 else 4;
      && b.bdi == 0 && n <= |own|
      && if n >= 64 then b.bytes == own
         else |b.bytes| == 64 && forall k :: 0 <= k < 64 ==> b.bytes[k] == if at <= k < at + n then own[k - at] else 0
    }

    /** What the link holds for the request once it is sent, stated from the request alone. */
    ghost predicate Carried(before: E.Event, held: E.CfgBus, after: E.Event)
      reads this
    {
      if cfg then
        && after.host.cfg.Some? && CarriedCfg(held, after.host.cfg.value)
        && after.avail.cfgTlx == before.avail.cfgTlx - 1
      else
        && after.host.cmd.Some? && CarriedCmd(after.host.cmd.value)
        && (if rnw then after.host.cmdData == before.host.cmdData
            else after.host.cmdData.Some? && CarriedData(after.host.cmdData.value))
    }

    lemma CommandCarries()
      requires WellFormed() && !cfg
      ensures CarriedCmd(CommandFor(rnw, size, dw, cmdPA, be))
    {
      Powers();
    }

    lemma DataCarries()
      requires WellFormed() && !cfg && Writable(size, dw, cmdPA, cmdData, data)
      ensures CarriedData(DataBeat(0, WriteData(size, dw, cmdPA, cmdData, data)))
    {
    }

    lemma CfgCarries(held: E.CfgBus)
      requires WellFormed() && cfg
      ensures CarriedCfg(held, E.CfgStaged(ConfigFor(rnw, cmdPA, cmdData), held))
    {
    }

    lemma RequestedCarries(before: E.Event, held: E.CfgBus, after: E.Event)
      requires WellFormed() && Requested(before, held, E.Success, after)
      ensures Carried(before, held, after)
    {
      hide CommandFor, WriteData, ConfigFor, E.CfgStaged, CarriedCmd, CarriedData, CarriedCfg;
      if cfg {
        CfgCarries(held);
        ConfigOpcode();
      } else {
        CommandCarries();
        if !rnw {
          DataCarries();
        }
      }
    }

    lemma ConfigOpcode()
      requires |cmdData| == 8
      ensures var o := ConfigFor(rnw, cmdPA, cmdData).opcode; o == E.CONFIG_READ || o == E.CONFIG_WRITE
    {
    }

    /** The body of send_mmio for an idle request. */
    method Send(afuEvent: TlxInterface.AfuEvent, held: E.CfgBus) returns (rc: E.Rc)
      requires WellFormed() && state == Idle
      modifies this`cmdDL, this`state, afuEvent`host, afuEvent`avail
      ensures WellFormed() && Requested(old(afuEvent.View()), held, rc, afuEvent.View())
      ensures rc == E.Success ==> Carried(old(afuEvent.View()), held, afuEvent.View())
      ensures state == (if rc == E.Success then Pending else Idle)
    {
      if cfg {
        rc := afuEvent.SendCfg(ConfigFor(rnw, cmdPA, cmdData), held);
      } else {
        cmdDL := DlOf(size);
        var cmd := CommandFor(rnw, size, dw, cmdPA, be);
        if rnw {
          rc := afuEvent.SendCmd(cmd, None);
        } else {
          InLine(size, dw, cmdPA);
          rc := afuEvent.SendCmd(cmd, Some(DataBeat(0, WriteData(size, dw, cmdPA, cmdData, data))));
        }
      }
      if rc == E.Success {
        RequestedCarries(old(afuEvent.View()), held, afuEvent.View());
        state := Pending;
      }
    }

    /** The response to this request that the link holds, and the link once it is read: a configuration response
        must carry the tag of the request, any other is taken to be for the request in flight. */
    function Answered(before: E.Event): (Option<Response>, E.Event)
    {
      if cfg then
        var (rc, r, after) := E.ReadCfgResp(before, if rnw then 0xdead else 0xbeef);
        var response := if r.Some? then Some(ConfigResponse(r.value)) else None;
        (response, after)
      else
        var (r, after) := E.ReadResp(before);
        var response := if r.Some? then Some(MemoryResponse(r.value)) else None;
        (response, after)
    }

    /** A configuration response counts when it has the tag of the request; only a read response, 0x01, brings a
        word. */
    lemma CfgAnswered(before: E.Event)
      requires cfg
      ensures var r := before.afu.cfgResp;
        Answered(before).0 ==
          if r.Some? && r.value.capptag == (if rnw then 0xdead else 0xbeef) then
            Some(Response(r.value.opcode, r.value.code, 0, 0,
                          if r.value.opcode == 0x01 then r.value.bus else [0, 0, 0, 0]))
          else None
    {
      assert Zeros(4) == [0, 0, 0, 0];
    }

    /** Any other response is taken as it is. */
    lemma MemoryAnswered(before: E.Event)
      requires !cfg
      ensures var r := before.afu.resp;
        if r.None? then Answered(before).0.None?
        else
          && Answered(before).0.Some?
          && var a := Answered(before).0.value;
          a.opcode == r.value.opcode && a.code == r.value.code && a.dl == r.value.dl && a.dp == r.value.dp
    {
    }

    /** handle_ap_resp for the request in flight: a read goes on to wait for its data. */
    method Respond(afuEvent: TlxInterface.AfuEvent)
      requires WellFormed() && (state == Pending ==> sizeReceived == 0 && beats == [])
      requires !cfg && afuEvent.afu.resp.Some? ==>
        CompleteResponse(afuEvent.afu.resp.value.dl, afuEvent.afu.resp.value.dp)
      modifies this, afuEvent`afu, afuEvent`host
      ensures WellFormed() && data == old(data) && beats == old(beats) && sizeReceived == old(sizeReceived)
      ensures afuEvent.View() == Answered(old(afuEvent.View())).1
      ensures old(state) == Pending && Answered(old(afuEvent.View())).0.Some? ==>
        var r := Answered(old(afuEvent.View())).0.value;
        && respCode == r.code && respOpcode == r.opcode
        && state == (if rnw && !cfg then Buffer else Done) && (state == Buffer ==> Assembling())
        && cmdData == (if rnw && cfg then r.word + Zeros(4) else old(cmdData))
        && (if rnw && !cfg then respDL == r.dl && respDP == r.dp && partialIndex == 0
            else respDL == old(respDL) && respDP == old(respDP) && partialIndex == old(partialIndex))
      ensures old(state) != Pending || Answered(old(afuEvent.View())).0.None? ==>
        && state == old(state) && cmdData == old(cmdData) && respCode == old(respCode) && respOpcode == old(respOpcode)
        && respDL == old(respDL) && respDP == old(respDP) && partialIndex == old(partialIndex)
    {
      if cfg {
        var rc, r := afuEvent.ReadCfgResp(if rnw then 0xdead else 0xbeef);
        if r.Some? && state == Pending {
          respCode, respOpcode := r.value.code, r.value.opcode;
          if rnw {
            var cfgReadData := Zeros(4);
            if r.value.data.Some? {
              cfgReadData := r.value.data.value.bus;
            }
            cmdData := cfgReadData + Zeros(4);
          }
          state := Done;
        }
      } else {
        var r := afuEvent.ReadResp();
        if r.Some? && state == Pending {
          respCode, respOpcode := r.value.code, r.value.opcode;
          if rnw {
            respDL, respDP, partialIndex := r.value.dl, r.value.dp, 0;
            state := Buffer;
          } else {
            state := Done;
          }
        }
      }
    }

    /** A register or partial read has its bytes from their place in the one line that came. */
    ghost predicate ShortRead(line: Line)
      reads this
    {
      var n := CmdBytes(size, dw);
      && cmdPA % 64 + n <= 64
      && (if size == 0 then n <= |cmdData| && cmdData[..n] == line[cmdPA % 64..cmdPA % 64 + n]
          else data == line[cmdPA % 64..cmdPA % 64 + n])
    }

    /** handle_ap_resp_data for a read in OCSE_BUFFER: where a beat goes, and whether it was the last. */
    method TakeBeat(b: LineBeat)
      requires WellFormed() && state == Buffer && Assembling()
      modifies this
      ensures WellFormed() && beats == old(beats) + [b.bytes]
      ensures Progress() == AfterPass(old(Progress()), true)
      ensures size < 64 ==> state == Done && ShortRead(b.bytes)
      ensures state == Done ==> Filled()
      ensures size == 0 ==> cmdData[CmdBytes(size, dw)..] == old(cmdData[CmdBytes(size, dw)..])
      ensures size >= 64 ==>
        if 64 * |beats| == size then state == Done && sizeReceived == size && data == Flatten(beats)
        else state == Buffer && Assembling()
    {
      if size < 64 {
        TakeShort(b);
      } else {
        TakeLong(b);
      }
    }

    method TakeShort(b: LineBeat)
      requires WellFormed() && size < 64 && !cfg
      modifies this`cmdData, this`data, this`state, this`beats
      ensures WellFormed() && beats == old(beats) + [b.bytes] && state == Done && ShortRead(b.bytes)
      ensures size == 0 ==> cmdData[CmdBytes(size, dw)..] == old(cmdData[CmdBytes(size, dw)..])
    {
      InLine(size, dw, cmdPA);
      beats := beats + [b.bytes];
      var offset := cmdPA % 64;
      if size == 0 {
        var length := if dw then 8 else 4;
        cmdData := b.bytes[offset..offset + length] + cmdData[length..];
        assert cmdData[..length] == b.bytes[offset..offset + length];
      } else {
        data := b.bytes[offset..offset + size];
      }
      state := Done;
    }

    method TakeLong(b: LineBeat)
      requires WellFormed() && state == Buffer && Assembling() && size >= 64
      modifies this`data, this`state, this`beats, this`partialIndex, this`sizeReceived
      ensures WellFormed() && beats == old(beats) + [b.bytes]
      ensures if 64 * |beats| == size then state == Done && sizeReceived == size && data == Flatten(beats)
              else state == Buffer && Assembling()
    {
      beats := beats + [b.bytes];
      var length, offset := 64, 0;
      if respDL == 1 {
        offset := respDP * length;
      } else if respDL == 2 {
        offset := respDP * (2 * length) + partialIndex;
      } else {
        offset := partialIndex;
      }
      BeatFits(size, partialIndex, old(beats), b.bytes);
      data := data[..offset] + b.bytes + data[offset + length..];
      partialIndex := partialIndex + length;
      sizeReceived := sizeReceived + length;
      assert data[..partialIndex] == old(data[..partialIndex]) + b.bytes;
      if sizeReceived == size {
        assert data[..partialIndex] == data;
        state := Done;
      }
    }
  }

  lemma BeatFits(size: nat, index: nat, beats: seq<Line>, b: Line)
    requires size in {64, 128, 256} && index == 64 * |beats| < size
    ensures index + 64 <= size && Flatten(beats + [b]) == Flatten(beats) + b
    ensures size == 64 ==> index == 0
  {
    FlattenAppend(beats, [b]);
    FlattenSingle(b);
  }

  /** A configuration request; a write's bytes start at its address within the word and what does not fit is lost. */
  function ConfigFor(rnw: bool, pa: U64, cmdData: seq<Byte>): CfgCmd
    requires |cmdData| == 8
  {
    if rnw then CfgCmd(0xE0, 0xdead, pa, 0, 2, 0, Zeros(4))
    else CfgCmd(0xE1, 0xbeef, pa, 0, 2, 0, (Zeros(pa % 4) + cmdData[..4])[..4])
  }

  class Queue {
    var list: seq<MmioEvent>
    const afuEvent: TlxInterface.AfuEvent
    ghost var arrived: seq<MmioEvent>     // every request ever added
    ghost var sent: seq<MmioEvent>        // requests put to the AFU, in order
    ghost var completed: seq<MmioEvent>   // requests that have left the list

    ghost function Events(): set<MmioEvent>
      reads this
    {
      set e | e in arrived
    }

    ghost predicate HeadOk(mid: bool)
      requires list != []
      reads this, Events(), list[0]
    {
      match list[0].state
      case Idle => list[0].Waiting()
      case Pending => list[0].sizeReceived == 0 && list[0].beats == []
      case Buffer => list[0].Assembling()
      case Done => mid && (list[0].cfg || !list[0].rnw)
    }

    /** Arrival order is kept, only the head is in flight, and between passes nothing on the list is done. Between
        the two halves of a pass (mid) the head may be, if no data is expected for it. */
    ghost predicate Holds(mid: bool)
      reads this, Events()
    {
      && arrived == completed + list
      && (forall i, j :: 0 <= i < j < |arrived| ==> arrived[i] != arrived[j])
      && sent == completed + (if list != [] && arrived[|completed|].state != Idle then [list[0]] else [])
      && (forall e :: e in Events() ==> e.WellFormed())
      && (forall e :: e in completed ==> e in Events() && e.state == Done && e.Filled())
      && (forall i :: 0 < i < |list| ==> list[i] in Events() && list[i].Waiting())
      && (list != [] ==> list[0] in Events() && HeadOk(mid))
    }

    ghost predicate Valid()
      reads this, Events()
    {
      Holds(false)
    }

    constructor (afuEvent: TlxInterface.AfuEvent)
      ensures Valid() && list == [] && this.afuEvent == afuEvent
    {
      this.afuEvent := afuEvent;
      list, arrived, sent, completed := [], [], [], [];
    }

    /** _add_event and _add_mem_event: at the end of the list. */
    method Add(e: MmioEvent)
      requires Valid() && e !in arrived && e.WellFormed() && e.Waiting()
      modifies this`list, this`arrived
      ensures Valid() && list == old(list) + [e] && arrived == old(arrived) + [e]
    {
      list := list + [e];
      arrived := arrived + [e];
      assert arrived == completed + list;
    }

    /** Requests reach the AFU in the order in which they arrived, one at a time. */
    lemma SentInOrder()
      requires Valid()
      ensures sent <= arrived && |sent| <= |completed| + 1
      ensures forall i :: 0 <= i < |list| && list[i].state != Idle ==> i == 0
      ensures forall e :: e in list ==> e.state != Done
    {
    }

    /** Only the head's fields have changed, to something allowed. */
    twostate predicate OnlyHead(mid: bool)
      reads this, Events()
    {
      && (old(Holds(false)) || old(Holds(true))) && list == old(list) && list != [] && arrived == old(arrived)
          && completed == old(completed)
      && (forall e :: e in Events() && e != list[0] ==> unchanged(e))
      && list[0] in Events() && list[0].WellFormed() && HeadOk(mid)
      && sent == completed + (if list[0].state != Idle then [list[0]] else [])
    }

    twostate lemma HeadChanged(mid: bool)
      requires OnlyHead(mid)
      ensures Holds(mid)
    {
      assert arrived[|completed|] == list[0];
      forall i | 0 < i < |list| ensures list[i] in Events() && unchanged(list[i]) {
        assert arrived[|completed| + i] == list[i];
      }
      forall e | e in completed ensures e in Events() && unchanged(e) {
        var k :| 0 <= k < |completed| && completed[k] == e;
        assert arrived[k] == e;
      }
    }

    lemma Head()
      requires Valid() && list != []
      ensures list[0] in Events() && list[0].WellFormed() && arrived[|completed|] == list[0]
    {
    }

    /** send_mmio. */
    method Send(held: E.CfgBus) returns (rc: Option<E.Rc>)
      requires Valid()
      modifies this`sent, Events(), afuEvent`host, afuEvent`avail
      ensures Valid() && list == old(list)
      ensures list == [] || old(list[0].state) != Idle ==>
        rc.None? && afuEvent.View() == old(afuEvent.View()) && sent == old(sent)
      ensures list != [] && old(list[0].state) == Idle ==>
        rc.Some? && list[0].Requested(old(afuEvent.View()), held, rc.value, afuEvent.View())
        && sent == old(sent) + (if rc.value == E.Success then [list[0]] else [])
        && (rc.value == E.Success ==> list[0].Carried(old(afuEvent.View()), held, afuEvent.View()))
    {
      if list == [] || list[0].state != Idle {
        return None;
      }
      Head();
      var r := list[0].Send(afuEvent, held);
      if r == E.Success {
        sent := sent + [list[0]];
      }
      HeadChanged(false);
      rc := Some(r);
    }

    /** handle_ap_resp. The AFU's responses are complete: the one to the request in flight has its full length. */
    method HandleApResp()
      requires Valid() && list != []
      requires !list[0].cfg && afuEvent.afu.resp.Some? ==>
        list[0].CompleteResponse(afuEvent.afu.resp.value.dl, afuEvent.afu.resp.value.dp)
      modifies Events(), afuEvent`afu, afuEvent`host
      ensures Holds(true) && list == old(list) && sent == old(sent)
      ensures afuEvent.View() == list[0].Answered(old(afuEvent.View())).1
      ensures var e := list[0];
        && e.data == old(e.data) && e.beats == old(e.beats)
        && var r := e.Answered(old(afuEvent.View())).0;
           if old(e.state) == Pending && r.Some? then
             && e.state == (if e.rnw && !e.cfg then Buffer else Done) && e.respCode == r.value.code
             && e.respOpcode == r.value.opcode && (e.rnw && e.cfg ==> e.cmdData == r.value.word + Zeros(4))
           else e.state == old(e.state) && e.respCode == old(e.respCode) && e.cmdData == old(e.cmdData)
                && e.respOpcode == old(e.respOpcode)
      ensures var e := list[0];
        var r := e.Answered(old(afuEvent.View())).0;
        !e.cfg && e.rnw ==> e.Progress() == if r.Some? then AfterResponse(old(e.Progress()), r.value.opcode)
                                            else old(e.Progress())
    {
      Head();
      list[0].Respond(afuEvent);
      HeadChanged(true);
    }

    /** The queue with a head that is done, and so must leave. */
    ghost predicate HeadLeaves()
      reads this, Events()
    {
      && list != [] && arrived == completed + list && sent == completed + [list[0]]
      && (forall i, j :: 0 <= i < j < |arrived| ==> arrived[i] != arrived[j])
      && list[0] in Events() && list[0].state == Done && list[0].Filled()
      && (forall e :: e in Events() ==> e.WellFormed())
      && (forall e :: e in completed ==> e in Events() && e.state == Done && e.Filled())
      && (forall i :: 0 < i < |list| ==> list[i] in Events() && list[i].Waiting())
    }

    twostate predicate OnlyHeadDone()
      reads this, Events()
    {
      && (old(Holds(false)) || old(Holds(true))) && list == old(list) && list != []
      && arrived == old(arrived) && completed == old(completed) && sent == old(sent)
      && (forall e :: e in Events() && e != list[0] ==> unchanged(e))
      && list[0] in Events() && list[0].WellFormed() && list[0].state == Done && list[0].Filled()
      && old(list[0].state) != Idle
    }

    twostate lemma HeadDone()
      requires OnlyHeadDone()
      ensures HeadLeaves()
    {
      assert arrived[|completed|] == list[0];
      forall i | 0 < i < |list| ensures list[i] in Events() && unchanged(list[i]) {
        assert arrived[|completed| + i] == list[i];
      }
      forall e | e in completed ensures e in Events() && unchanged(e) {
        var k :| 0 <= k < |completed| && completed[k] == e;
        assert arrived[k] == e;
      }
    }

    /** `mmio->list = mmio->list->_next` for a request that is done. */
    method DropHead()
      requires HeadLeaves()
      modifies this`list, this`completed
      ensures Valid() && list == old(list)[1..] && completed == old(completed) + [old(list)[0]]
    {
      completed := completed + [list[0]];
      list := list[1..];
      assert arrived == completed + list;
      assert old(list)[0] == arrived[|old(completed)|];
      if list != [] {
        assert arrived[|completed|] == list[0] == old(list)[1];
      }
    }

    lemma MidHead()
      requires Holds(true) && list != []
      ensures list[0] in Events() && list[0].WellFormed() && arrived[|completed|] == list[0]
      ensures list[0].state == Buffer ==> list[0].Assembling()
      ensures list[0].state == Done ==> HeadLeaves() && (list[0].cfg || !list[0].rnw)
      ensures list[0].state != Done ==> Valid()
    {
    }

    /** handle_ap_resp_data: what is done leaves the list, so after every pass nothing on the list is done; a beat for
        a read of 64 bytes or more extends its buffer by exactly that beat, and the last beat completes it. */
    method HandleApRespData()
      requires Holds(true) && list != []
      modifies this`list, this`completed, Events(), afuEvent`afu, afuEvent`host
      ensures Valid() && (list == old(list) || (list == old(list)[1..] && old(list)[0].state == Done))
      ensures var e := old(list)[0];
        && (e.cfg || !e.rnw ==> (list == old(list)[1..] <==> old(e.state) == Done))
        && (!e.cfg && e.rnw && (old(e.state) != Buffer || old(afuEvent.afu.respData).None?) ==>
              list == old(list) && e.beats == old(e.beats) && e.data == old(e.data) && e.state == old(e.state))
        && (!e.cfg && e.rnw && old(e.state) == Buffer && old(afuEvent.afu.respData).Some? ==>
              && e.beats == old(e.beats) + [old(afuEvent.afu.respData).value.bytes]
              && (e.size >= 64 && 64 * |e.beats| == e.size ==>
                    e.data == Flatten(e.beats) && e.sizeReceived == e.size && list == old(list)[1..])
              && (e.size >= 64 && 64 * |e.beats| != e.size ==> list == old(list))
              && (e.size < 64 ==> list == old(list)[1..] && e.ShortRead(old(afuEvent.afu.respData).value.bytes)))
      ensures var e := old(list)[0];
        !e.cfg && e.rnw ==>
          && e.Progress() == AfterPass(old(e.Progress()), old(afuEvent.afu.respData).Some?)
          && (list == old(list)[1..] <==> e.state == Done)
    {
      MidHead();
      hide AfterPass;
      var e := list[0];
      NoPass(e.Progress());
      if e.cfg || !e.rnw {
        if e.state == Done {
          DropHead();
        }
      } else {
        var b := afuEvent.ReadRespData();
        if b.Some? && e.state == Buffer {
          e.TakeBeat(b.value);
          if e.state == Done {
            HeadDone();
            DropHead();
          } else {
            HeadChanged(false);
          }
        }
      }
    }

    /** handle_mmio_done: an answered request is freed only when the list no longer holds it; its client gets the
        acknowledgement of its kind, the response code and, unless it failed, the data read. */
    method MmioDone(e: MmioEvent) returns (freed: bool, reply: seq<Byte>)
      requires Valid() && e in arrived
      ensures freed == (e.state == Done) && (!freed ==> reply == [])
      ensures freed ==> e !in list && reply == [AckOf(e.size), e.respCode] + e.ReadBytes()
      ensures freed ==> reply[0] == (if e.size > 0 then 0x2e else 0x11) && reply[1] == e.respCode
      ensures freed && e.rnw && e.size == 0 && !e.Failed() ==>
        var n := if e.dw then 8 else 4;
        |reply| == 2 + n && FromBigEndian(reply[2..]) == FromLittleEndian(e.cmdData[..n])
      ensures freed && e.rnw && !e.cfg && e.size > 0 && !e.Failed() ==>
        e.Filled() && reply[2..] == (if e.size >= 64 then Flatten(e.beats)
                                     else e.beats[0][e.cmdPA % 64..e.cmdPA % 64 + e.size])
    {
      freed := e.state == Done;
      reply := [];
      if freed {
        assert e in completed;
        if e.rnw && e.size == 0 && !e.Failed() {
          e.RegisterValue();
        }
        hide FromBigEndian, FromLittleEndian, Flatten;
        reply := [AckOf(e.size), e.respCode];
        if (e.respOpcode == 0x02 || e.respOpcode == 0x04) && e.respCode != 0 {
          return;
        }
        if e.rnw {
          if e.size != 0 {
            reply := reply + e.data;
          } else if e.dw {
            var d := e.cmdData;
            reply := reply + [d[7], d[6], d[5], d[4], d[3], d[2], d[1], d[0]];
          } else {
            var d := e.cmdData;
            reply := reply + [d[3], d[2], d[1], d[0]];
          }
        }
      }
    }
  }

  /** OCSE_LPC_ACK for an LPC access, OCSE_MMIO_ACK for a register. */
  function AckOf(size: nat): Byte { if size > 0 then 0x2e else 0x11 }

  function Reversed(s: seq<Byte>): (r: seq<Byte>)
    ensures |r| == |s| && forall i :: 0 <= i < |s| ==> r[i] == s[|s| - 1 - i]
  {
    seq(|s|, i requires 0 <= i < |s| => s[|s| - 1 - i])
  }

  predicate Writable(size: nat, dw: bool, pa: U64, cmdData: seq<Byte>, data: seq<Byte>) {
    var n := CmdBytes(size, dw);
    && |cmdData| == 8 && |data| >= size && n <= 256
    && (n < 64 ==> pa % 64 + n <= 64)
  }

  /** The data bus of a write: a partial write's bytes at their place in the line, a full one's from the start. */
  function WriteData(size: nat, dw: bool, pa: U64, cmdData: seq<Byte>, data: seq<Byte>): (s: seq<Byte>)
    requires Writable(size, dw, pa, cmdData, data)
    ensures |s| <= 256
  {
    var n := CmdBytes(size, dw);
    var bytes := if size == 0 then cmdData[..n] else data[..n];
    if n < 64 then Placed(pa, bytes) else bytes
  }

  /** A naturally aligned access of less than 64 bytes never leaves its line. */
  lemma InLine(size: nat, dw: bool, pa: U64)
    requires ValidSize(size) && pa % CmdBytes(size, dw) == 0
    ensures CmdBytes(size, dw) < 64 ==> pa % 64 + CmdBytes(size, dw) <= 64
  {
    var n := CmdBytes(size, dw);
    if n < 64 {
      PartialInLine(pa, n);
    }
  }
}
