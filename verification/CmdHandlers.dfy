/** ocse/cmd.c as objects: struct cmd_event cells that the handlers update in place, clients whose mem_access
    points at one of them, and the list they scan. Every handler is proved against its function in CmdEngine. */
module CmdHandlers {
  import opened Common
  import opened TlxPacket
  import E = TlxEvent
  import TlxInterface
  import opened CmdEngine
  import opened CmdInvariant

  class CmdEvent {
    var afutag: U16
    var context: nat
    var command: Byte
    var typ: CmdType
    var addr: U64
    var size: nat
    var state: MemState
    var resp: Byte
    var respDl: Byte
    var respDp: nat
    var respOpcode: Byte
    var dpartial: nat
    var bytesSent: nat
    var data: seq<Byte>
    ghost var hist: seq<Msg>
    ghost var skips: seq<nat>
    ghost var refused: nat
    ghost var beats: seq<Line>
    ghost var returned: seq<Byte>
    ghost var denied: bool
    ghost const came: AfuCmd
    const wrBe: U64
    const flag: Byte
    const endian: Byte

    ghost function View(): Ev
      reads this
    {
      Ev(afutag, context, command, typ, addr, size, state, resp, respDl, respDp, respOpcode, dpartial, bytesSent, data,
         wrBe, flag, endian, hist, skips, refused, beats, returned, came, denied)
    }

    /** The condition of a scan, read off the fields. */
    predicate Picked(k: Scan)
      reads this
      ensures Picked(k) == Picks(k, View())
    {
      match k
      case ToRespond => state in {Done, XlatePending, IntPending}
      case ToRead => typ == CmdRead && state != Done
      case ToFill => typ == CmdWrite && state == Buffer
      case ToWrite => typ == CmdWrite && state == Received
      case ToInterrupt => typ in {CmdInterrupt, CmdWake} && state in {Idle, Received}
      case ToOperate => typ in {CmdWrBe, CmdAmoWr, CmdAmoRw, CmdAmoRd} && state == Received
    }

    /** The body of handle_interrupt: a refusal, or the bytes put on the client's socket. */
    method Interrupt(a: Allow) returns (sent: Option<seq<Byte>>)
      requires IntrRefused(View(), a) || CanNotify(View())
      modifies this
      ensures View() == AfterInterrupt(old(View()), a) && afutag == old(afutag)
      ensures sent == if IntrRefused(old(View()), a) then None else Some(NoticeBytes(old(View())))
    {
      sent := None;
      if a.retry {
        state, typ, resp := Done, CmdFailed, 0x02;
      } else if a.failed {
        state, typ, resp := Done, CmdFailed, 0x0e;
      } else if typ != CmdWake && a.pending {
        state, typ, resp := IntPending, CmdFailed, 0x04;
      } else if command == 0x5a && a.derror {
        state, typ, resp := Done, CmdFailed, 0x08;
      } else {
        var bytes := BuildNotice();
        sent := Some(bytes);
        state := Done;
      }
    }

    /** The message built in the 45-byte buffer. */
    method BuildNotice() returns (bytes: seq<Byte>)
      requires CanNotify(View())
      ensures bytes == NoticeBytes(View())
    {
      var buffer := new Byte[NOTICE_BUFFER](_ => 0);
      if typ == CmdWake {
        buffer[0] := OCSE_WAKE_HOST_THREAD;
      } else if command == 0x5a {
        buffer[0] := OCSE_INTERRUPT_D;
      } else {
        buffer[0] := OCSE_INTERRUPT;
      }
      buffer[1] := flag;
      assert buffer[..2] == [buffer[0], flag];
      CopyIn(buffer, 2, LittleEndian(addr, 8));
      var byteCount := 10;
      if command == 0x5a {
        var offset := addr % 64;
        CopyIn(buffer, 10, LittleEndian(size, 2));
        byteCount := byteCount + 2;
        CopyIn(buffer, 12, data[offset..offset + size]);
        byteCount := byteCount + size;
      }
      bytes := buffer[..byteCount];
    }

    /** The four refusals of a request: retry, failed, data error and pending. */
    method Refuse(opcode: Byte, code: Byte)
      modifies this
      ensures View() == Fail(old(View()), opcode, code) && afutag == old(afutag)
    {
      state := if code == 4 then XlatePending else Done;
      typ, respOpcode, resp := CmdFailed, opcode, code;
    }

    /** What handle_response does to a long read or write before it sends. */
    method Advance(hostClSize: nat)
      modifies this
      ensures View() == NextPart(hostClSize, old(View())) && afutag == old(afutag) && bytesSent >= old(bytesSent)
    {
      if typ != CmdFailed && (IsRead(command) || IsWrite(command)) && size > hostClSize {
        if bytesSent != 0 {
          if hostClSize == 128 {
            respDp := 2;
          } else {
            respDp := respDp + 1;
          }
        }
        respDl := SizeToDl(hostClSize);
        bytesSent := bytesSent + hostClSize;
      }
    }

    /** The response itself; a failed command, a write or a touch is answered without data. */
    method Send(afuEvent: TlxInterface.AfuEvent, bdi: Byte) returns (rc: E.Rc)
      requires AnswersWithData(View()) ==> PayloadInBuffer(View())
      modifies afuEvent`host, afuEvent`avail
      ensures (rc, afuEvent.View()) == SendMsg(old(afuEvent.View()), View(), bdi)
    {
      var dp: Byte := respDp % 256;
      if typ == CmdFailed {
        rc := afuEvent.SendResp(HostResp(respOpcode, afutag, resp, 0, respDl, dp));
      } else if IsRead(command) || IsPartialRead(command) || IsAmoRd(command) || IsAmoRw(command) {
        rc := afuEvent.SendRespAndData(HostResp(respOpcode, afutag, 0, 0, respDl, dp), bdi, data);
      } else {
        rc := afuEvent.SendResp(HostResp(respOpcode, afutag, resp, 0, respDl, dp));
      }
    }

    /** A message accepted by the link enters the history. */
    ghost method Record(m: Msg)
      modifies this`hist, this`skips
      ensures View() == Sent(old(View()), m)
    {
      hist, skips := hist + [m], skips + [refused];
    }

    /** After an accepted message: stays says whether the cell is kept. */
    method Accepted(ghost m: Msg) returns (stays: bool)
      modifies this
      ensures afutag == old(afutag)
      ensures var n := Sent(old(View()), m);
        if n.state in {XlatePending, IntPending} then stays && View() == n.(state := PendingSent)
        else View() == n && stays == MoreParts(n)
    {
      Record(m);
      if state == XlatePending || state == IntPending {
        state := PendingSent;
        return true;
      }
      stays := bytesSent > 0 && bytesSent != size;
    }

    /** After a refused one: the byte count backs up, resp_dp does not. */
    method Refused(hostClSize: nat, ghost continued: bool)
      requires bytesSent != 0 ==> bytesSent >= hostClSize
      modifies this
      ensures afutag == old(afutag)
      ensures var p := old(View()); View() == p.(
        bytesSent := if p.bytesSent != 0 then p.bytesSent - hostClSize else 0,
        refused := if continued then p.refused + 1 else p.refused)
    {
      if bytesSent != 0 {
        bytesSent := bytesSent - hostClSize;
      }
      if continued {
        refused := refused + 1;
      }
    }

    /** memcpy of the first beat, and the state it puts the command in. */
    method TakeFirst(b: LineBeat)
      modifies this
      ensures View() == Fill(old(View()), b) && afutag == old(afutag)
    {
      data := if |data| >= 64 then b.bytes + data[64..] else b.bytes;
      beats := [b.bytes];
      if typ != CmdInterrupt {
        if size > 64 {
          dpartial, state := 64, Buffer;
        } else {
          dpartial, state := 0, Received;
        }
      }
    }

    /** memcpy of one more beat at dpartial. */
    method TakeNext(b: LineBeat)
      requires CanFill(View()) && state == Buffer
      modifies this
      ensures View() == Gather(old(View()), b) && afutag == old(afutag)
    {
      beats := beats + [b.bytes];
      if size - dpartial > 64 {
        data := data[..dpartial] + b.bytes + data[dpartial + 64..];
        dpartial := dpartial + 64;
        state := Buffer;
      } else {
        data := data[..dpartial] + b.bytes[..size - dpartial] + data[size..];
        state := Received;
      }
    }

    /** The write request handle_afu_tlx_write_cmd builds. */
    method WriteRequest() returns (req: HostReq)
      requires CanWrite(View())
      ensures req == WriteReq(context, afutag, addr, WrittenBytes(View()))
      ensures req == WriteReq(View().context, View().afutag, View().addr, WrittenBytes(View()))
    {
      if size <= 32 {
        var offset := addr % 64;
        req := WriteReq(context, afutag, addr, data[offset..offset + size]);
      } else {
        req := WriteReq(context, afutag, addr, data[..size]);
      }
    }

    /** The request handle_write_be_or_amo builds. */
    method OpRequest() returns (req: HostReq)
      requires CanOperate(View())
      ensures req == OpReqOf(View())
    {
      if typ == CmdWrBe {
        req := WriteBeReq(context, afutag, addr, wrBe, data[..size]);
      } else if typ == CmdAmoWr || typ == CmdAmoRw {
        var offset := addr % 64;
        req := AmoReq(context, afutag, addr, typ, size, flag, endian, data[offset..offset + AMO_BYTES]);
      } else {
        req := AmoReq(context, afutag, addr, typ, size, flag, endian, []);
      }
    }

    /** The memcpy of _handle_mem_read. */
    method Store(bytes: seq<Byte>)
      requires CanStore(View(), bytes)
      modifies this`data, this`returned
      ensures View() == old(View()).(data := Put(old(View()), bytes), returned := bytes)
    {
      var offset := addr % 64;
      data := data[..offset] + bytes + data[offset + size..];
      returned := bytes;
    }

    /** handle_mem_return with _handle_mem_read. */
    method Return(bytes: seq<Byte>)
      requires typ in {CmdRead, CmdAmoRd, CmdAmoRw} ==> CanStore(View(), bytes)
      modifies this
      ensures View() == MemReturn(old(View()), bytes) && afutag == old(afutag)
    {
      hide Put;
      if typ == CmdRead {
        Store(bytes);
        state := Received;
      }
      if typ == CmdWrite {
        state := Done;
      } else if typ == CmdAmoRd || typ == CmdAmoRw {
        Store(bytes);
        state := Done;
        if size == 4 {
          size := 2;
        } else {
          size := 3;
        }
      } else if typ == CmdTouch {
        state := Done;
      } else {
        state := Done;
      }
    }

    /** A read whose data is in the buffer. */
    method Finish()
      modifies this
      ensures View() == old(View()).(resp := 0, state := Done) && afutag == old(afutag)
    {
      resp, state := 0, Done;
    }

    /** The resp code of the completion, and the completion itself unless it failed; once accepted, it is the
        command's last message. */
    method Conclude(afuEvent: TlxInterface.AfuEvent, a: Allow) returns (rc: Option<E.Rc>)
      modifies this, afuEvent`host, afuEvent`avail
      ensures var e := old(View()).(resp := if a.retry then 0x02 else if a.failed then 0x0f else 0);
        && View() == (if rc == Some(E.Success) then Sent(e, PostedFor(e)) else e) && afutag == old(afutag)
        && (if !a.retry && a.failed then rc.None? && afuEvent.View() == old(afuEvent.View())
            else rc.Some? && (rc.value, afuEvent.View()) == E.SendResp(old(afuEvent.View()), PostedFor(e).r))
    {
      hide E.SendResp;
      if a.retry {
        resp := 0x02;
      } else if a.failed {
        resp := 0x0f;
        return None;
      } else {
        resp := 0;
      }
      var cmdToSend := if 0x58 <= command <= 0x5d then INTRP_RDY else XLATE_DONE;
      var r := afuEvent.SendResp(HostResp(cmdToSend, afutag, resp, 0, 0, 0));
      rc := Some(r);
      if r == E.Success {
        Record(PostedFor(View()));
      }
    }

    /** handle_aerror. */
    method AddressError()
      modifies this
      ensures View() == Aerror(old(View())) && afutag == old(afutag)
    {
      state, typ, resp := Done, CmdFailed, 0x0e;
      denied := true;
    }

    /** The calloc of _add_cmd. */
    constructor (context: nat, c: AfuCmd, typ: CmdType, addr: U64, size: nat, state: MemState, resp: Byte,
        respOpcode: Byte)
      ensures View() == NewEvent(context, c, typ, addr, size, state, resp, respOpcode)
    {
      this.context, this.command, this.afutag, this.typ, this.addr, this.size := context, c.opcode, c.afutag, typ,
          addr, size;
      this.state, this.resp, this.respOpcode := state, resp, respOpcode;
      this.respDl := if size <= 64 then 1 else SizeToDl(size);
      this.respDp, this.dpartial, this.bytesSent := 0, 0, 0;
      this.data := ClearedBuffer();
      this.wrBe := if typ == CmdWrBe then c.be else 0;
      this.flag := if TakesFlag(typ) then c.flag else 0;
      this.endian := if IsAmo(typ) then c.endian else 0;
      hist, skips, refused, beats, returned, came, denied := [], [], 0, [], [], c, false;
    }
  }

  /** memcpy of s to a place in a buffer. */
  method CopyIn(buffer: array<Byte>, at: nat, s: seq<Byte>)
    requires at + |s| <= buffer.Length
    modifies buffer
    ensures buffer[..at + |s|] == old(buffer[..at]) + s
  {
    for k := 0 to |s|
      invariant buffer[..at + k] == old(buffer[..at]) + s[..k]
    {
      buffer[at + k] := s[k];
    }
  }

  class OclClient {
    var actag: U16
    var bdf: U16
    var pasid: U32
    var memAccess: CmdEvent?
    ghost var unanswered: nat
  }

  class Cmd {
    var list: seq<CmdEvent>
    var client: seq<OclClient?>
    const afuEvent: TlxInterface.AfuEvent
    const hostClSize: nat
    ghost var retired: seq<Ev>
    ghost var asked: seq<HostReq>
    ghost var notices: seq<Notice>

    ghost function Events(): set<CmdEvent>
      reads this
    {
      set e | e in list
    }

    ghost function Clients(): set<OclClient>
      reads this
    {
      set c: OclClient | c in client
    }

    ghost function Views(): (s: seq<Ev>)
      reads this, Events()
      ensures |s| == |list|
    {
      seq(|list|, i requires 0 <= i < |list| reads this, Events() => list[i].View())
    }

    ghost function ClientView(c: OclClient?): Option<Client>
      reads if c == null then {} else {c}, if c == null || c.memAccess == null then {} else {c.memAccess}
    {
      if c == null then None
      else Some(Client(c.actag, c.bdf, c.pasid, if c.memAccess == null then None else Some(c.memAccess.afutag),
          c.unanswered))
    }

    ghost predicate Pointers()
      reads this, Events(), Clients()
    {
      && (forall i, j :: 0 <= i < j < |list| ==> list[i] != list[j])
      && (forall i, j :: 0 <= i < j < |client| && client[i] != null ==> client[i] != client[j])
      && (forall c :: c in Clients() && c.memAccess != null ==> c.memAccess in Events())
    }

    ghost function ClientViews(): (s: seq<Option<Client>>)
      requires Pointers()
      reads this, Events(), Clients()
      ensures |s| == |client|
      ensures forall i :: 0 <= i < |client| ==> s[i] == ClientView(client[i])
    {
      seq(|client|, i requires 0 <= i < |client| && Pointers() reads this, Events(), Clients() =>
        assert client[i] != null ==> client[i] in Clients();
        ClientView(client[i]))
    }

    ghost function View(): State
      requires Pointers()
      reads this, Events(), Clients(), afuEvent
    {
      State(Views(), ClientViews(), afuEvent.afu.cmd, afuEvent.afu.cmdData, retired, asked, notices)
    }

    /** A client's mem_access is always a cell of the list, and the engine's invariant holds. */
    ghost predicate Valid()
      reads this, Events(), Clients(), afuEvent
    {
      Pointers() && ValidCl(hostClSize) && Inv(hostClSize, View())
    }

    /** cmd_init, with the client array its ocl allocates later. */
    constructor (afuEvent: TlxInterface.AfuEvent, hostClSize: nat, maxClients: nat)
      requires ValidCl(hostClSize)
      ensures Valid() && this.afuEvent == afuEvent && this.hostClSize == hostClSize && list == []
        && |client| == maxClients
    {
      this.afuEvent, this.hostClSize := afuEvent, hostClSize;
      list, client := [], seq(maxClients, _ => null);
      retired, asked, notices := [], [], [];
    }

    // ---------- views after an update ----------

    /** Only the cell at i has changed, and not its tag. */
    twostate predicate OnlyCell(i: nat)
      reads this, Events(), Clients(), afuEvent
    {
      && old(Pointers()) && list == old(list) && client == old(client) && i < |list|
      && (forall j :: 0 <= j < |list| && j != i ==> unchanged(list[j]))
      && (forall c :: c in Clients() ==> unchanged(c))
      && list[i].afutag == old(list[i].afutag)
      && retired == old(retired) && asked == old(asked) && notices == old(notices)
      && afuEvent.afu.cmd == old(afuEvent.afu.cmd) && afuEvent.afu.cmdData == old(afuEvent.afu.cmdData)
    }

    twostate lemma CellChanged(i: nat)
      requires OnlyCell(i)
      ensures Pointers() && View() == old(View()).(list := old(Views())[i := list[i].View()])
    {
      Gathered(i);
    }

    lemma Opened()
      requires Valid()
      ensures Pointers() && ValidCl(hostClSize) && Inv(hostClSize, View())
      ensures View().list == Views() && |View().list| == |list|
    {
    }

    lemma Closed()
      requires Pointers() && ValidCl(hostClSize) && Inv(hostClSize, View())
      ensures Valid()
    {
    }

    /** The cell at i may have changed, and the staged data beat is read. */
    twostate lemma Gathered(i: nat)
      requires old(Pointers()) && list == old(list) && client == old(client) && i < |list|
      requires forall j :: 0 <= j < |list| && j != i ==> unchanged(list[j])
      requires forall c :: c in Clients() ==> unchanged(c)
      requires list[i].afutag == old(list[i].afutag) && retired == old(retired) && asked == old(asked)
      requires notices == old(notices)
      requires afuEvent.afu.cmd == old(afuEvent.afu.cmd)
      ensures Pointers() && View().cdata == afuEvent.afu.cmdData && old(View()).cdata == old(afuEvent.afu.cmdData)
      ensures View() == old(View()).(list := old(View()).list[i := list[i].View()], cdata := View().cdata)
    {
      assert Views() == old(Views())[i := list[i].View()];
      forall k | 0 <= k < |client| ensures ClientView(client[k]) == old(ClientView(client[k])) {
        var c := client[k];
        assert c != null ==> c in Clients() && unchanged(c);
        if c != null && c.memAccess != null {
          assert c.memAccess in Events();
          var j :| 0 <= j < |list| && list[j] == c.memAccess;
          assert list[j].afutag == old(list[j].afutag);
        }
      }
      assert ClientViews() == old(ClientViews());
    }

    lemma CellAt(i: nat)
      requires Pointers() && i < |list|
      ensures Views()[i] == View().list[i] == list[i].View() && list[i] in Events()
      ensures forall j :: 0 <= j < |list| && j != i ==> list[j] != list[i]
      ensures View().list == Views() && |View().list| == |list|
    {
    }

    /** The loop every handler starts with: the first cell it may work on. */
    method Find(k: Scan) returns (i: nat)
      requires Pointers()
      ensures Pointers() && View() == old(View()) && i == First(View().list, k) <= |View().list| == |list|
    {
      hide Picks;
      i := 0;
      while i < |list| && !list[i].Picked(k)
        invariant i <= |list| && forall j :: 0 <= j < i ==> !Picks(k, list[j].View())
      {
        i := i + 1;
      }
      assert forall j :: 0 <= j < i ==> !Picks(k, Views()[j]);
      assert i < |list| ==> Picks(k, Views()[i]);
    }

    // ---------- handlers ----------

    /** handle_interrupt; without the precondition it would copy outside its buffers. */
    method HandleInterrupt(a: Allow) returns (sent: Option<Notice>)
      requires Valid() && CanInterrupt(View(), a)
      modifies this`notices, Events()
      ensures Valid() && list == old(list) && View() == CmdEngine.HandleInterrupt(old(View()), a)
      ensures notices == old(notices) + Opt(sent)
    {
      hide Inv, Valid, View, Views, Pointers, ClientViews, First, AfterInterrupt, CmdEngine.HandleInterrupt,
        CmdEvent.View, NoticeBytes, IntrRefused, CanNotify;
      Opened();
      InterruptInv(hostClSize, View(), a);
      var i := Find(ToInterrupt);
      InterruptIs(View(), a, i);
      sent := None;
      if i < |list| {
        CellAt(i);
        FieldsOf(list[i]);
        var event, context := list[i], list[i].context;
        var bytes := event.Interrupt(a);
        CellChanged(i);
        if bytes.Some? {
          sent := Some(Notice(context, bytes.value));
          Tell(sent.value);
        }
      }
      Closed();
    }

    /** put_bytes on the client's socket. */
    ghost method Tell(n: Notice)
      requires Pointers()
      modifies this`notices
      ensures Pointers() && View() == old(View()).(notices := old(View()).notices + [n])
      ensures notices == old(notices) + [n]
    {
      ghost var s := View();
      notices := notices + [n];
      assert Views() == s.list && ClientViews() == s.clients;
    }

    lemma InterruptIs(s: State, a: Allow, i: nat)
      requires i == First(s.list, ToInterrupt) && CanInterrupt(s, a)
      ensures i == |s.list| ==> CmdEngine.HandleInterrupt(s, a) == s
      ensures i < |s.list| ==> IntrRefused(s.list[i], a) || CanNotify(s.list[i])
      ensures i < |s.list| && IntrRefused(s.list[i], a) ==>
        CmdEngine.HandleInterrupt(s, a) == s.(list := s.list[i := AfterInterrupt(s.list[i], a)])
      ensures i < |s.list| && !IntrRefused(s.list[i], a) ==>
        CmdEngine.HandleInterrupt(s, a) == s.(
          list := s.list[i := AfterInterrupt(s.list[i], a)],
          notices := s.notices + [Notice(s.list[i].context, NoticeBytes(s.list[i]))])
    {
      assert s.notices + [] == s.notices;
    }

    // ---------- handle_response, handle_xlate_intrp_pending_sent ----------

    /** Only a command waiting for its client is anyone's mem_access. */
    lemma PointedAt(i: nat)
      requires Pointers() && ValidCl(hostClSize) && Inv(hostClSize, View()) && i < |list|
      ensures forall c :: c in Clients() && c.memAccess == list[i] ==> Accessed(list[i].View())
    {
      var s := View();
      assert s.list[i] == list[i].View();
      forall c | c in Clients() && c.memAccess == list[i] ensures Accessed(list[i].View()) {
        var k :| 0 <= k < |client| && client[k] == c;
        assert s.clients[k] == ClientView(c);
        hide Accessed, Shape;
        assert ClientOk(s.list, s.clients[k].value, k);
        var j :| PointsTo(s.list, j, list[i].afutag, k);
        assert j == i;
      }
    }

    /** `*head = event->_next; free(event)`: safe because no client points at the cell. */
    method Free(i: nat)
      requires Pointers() && i < |list| && forall c :: c in Clients() ==> c.memAccess != list[i]
      modifies this`list, this`retired
      ensures Pointers() && View() == Resolve(old(View()), i, Leaves(old(View()).list[i])) && Events() <= old(Events())
    {
      ghost var s, clients := View(), ClientViews();
      ghost var cell := list[i];
      CellAt(i);
      retired := retired + [cell.View()];
      list := list[..i] + list[i + 1..];
      assert forall e :: e in old(list) && e != cell ==> e in list;
      assert Pointers();
      hide Pointers;
      assert Views() == Remove(s.list, i);
      assert ClientViews() == clients;
    }

    lemma AnswerIs(cl: nat, s: State, i: nat)
      requires i < |s.list| && CanSend(cl, s.list[i])
      ensures AnswersWithData(NextPart(cl, s.list[i])) ==> PayloadInBuffer(NextPart(cl, s.list[i]))
      ensures var e := s.list[i];
        var p := NextPart(cl, e);
        var n := Sent(p, MsgOf(p));
        && (p.bytesSent != 0 ==> p.bytesSent >= cl)
        && Resolve(s, i, Answer(cl, e, true)) == (
             if n.state in {XlatePending, IntPending} then s.(list := s.list[i := n.(state := PendingSent)])
             else if MoreParts(n) then s.(list := s.list[i := n])
             else Resolve(s.(list := s.list[i := n]), i, Leaves(n)))
        && Resolve(s, i, Answer(cl, e, false)) == s.(list := s.list[i := p.(
             bytesSent := if p.bytesSent != 0 then p.bytesSent - cl else 0,
             refused := if e.bytesSent != 0 then p.refused + 1 else p.refused)])
    {
    }

    /** The second half of handle_response, for the command it selected. */
    method SendAnswer(i: nat, bdi: Byte) returns (r: E.Rc)
      requires Pointers() && i < |list| && CanSend(hostClSize, View().list[i])
      requires forall c :: c in Clients() ==> c.memAccess != list[i]
      modifies this`list, this`retired, list[i], afuEvent`host, afuEvent`avail
      ensures Pointers() && View() == Resolve(old(View()), i, Answer(hostClSize, old(View()).list[i], r == E.Success))
      ensures Events() <= old(Events())
      ensures var p := NextPart(hostClSize, old(View()).list[i]);
        && (AnswersWithData(p) ==> PayloadInBuffer(p))
        && (r, afuEvent.View()) == SendMsg(old(afuEvent.View()), p, bdi)
    {
      hide View, Views, Pointers, ClientViews, NextPart, Answer, CmdEvent.View, PayloadInBuffer,
        AnswersWithData, MsgOf, SendMsg, CanSend, MoreParts, Sent, Resolve;
      ghost var s := View();
      CellAt(i);
      AnswerIs(hostClSize, s, i);
      var event := list[i];
      ghost var continued := s.list[i].bytesSent != 0;
      event.Advance(hostClSize);
      ghost var p := NextPart(hostClSize, s.list[i]);
      r := event.Send(afuEvent, bdi);
      if r == E.Success {
        var stays := event.Accepted(MsgOf(p));
        CellChanged(i);
        if !stays {
          Free(i);
        }
      } else {
        FieldsOf(event);
        event.Refused(hostClSize, continued);
        CellChanged(i);
      }
    }

    /** handle_response; rc is what the link said, if there was anything to answer. */
    method HandleResponse(bdi: Byte) returns (rc: Option<E.Rc>)
      requires Valid()
      modifies this`list, this`retired, Events(), afuEvent`host, afuEvent`avail
      ensures Valid() && CanRespond(hostClSize, old(View()))
      ensures View() == CmdEngine.HandleResponse(hostClSize, old(View()), rc == Some(E.Success))
        && Events() <= old(Events())
      ensures AnswerTried(hostClSize, old(View()), old(afuEvent.View()), bdi, rc, afuEvent.View())
    {
      hide Inv, Valid, View, Views, Pointers, ClientViews, First, NextPart, Answer, CmdEvent.View, PayloadInBuffer,
        AnswersWithData, Accessed, Resolve, SendMsg;
      Opened();
      ghost var s := View();
      RespondEnabled(hostClSize, s);
      ResponseInv(hostClSize, s, true);
      ResponseInv(hostClSize, s, false);
      var i := Find(ToRespond);
      rc := None;
      if i < |list| {
        CellAt(i);
        PointedAt(i);
        NotAccessed(s.list[i]);
        var r := SendAnswer(i, bdi);
        rc := Some(r);
      }
      Closed();
    }

    lemma NotAccessed(e: Ev)
      ensures Picks(ToRespond, e) || e.state == PendingSent ==> !Accessed(e)
    {
    }

    lemma FieldsOf(e: CmdEvent)
      ensures e.View().bytesSent == e.bytesSent && e.View().state == e.state && e.View().afutag == e.afutag
      ensures e.View().context == e.context && e.View().typ == e.typ && e.View().command == e.command
      ensures e.View().addr == e.addr && e.View().size == e.size
    {
    }

    /** handle_xlate_intrp_pending_sent; reorder is allow_reorder's answer at each cell. */
    method FindPendingSent(reorder: seq<bool>) returns (pick: Option<nat>)
      requires Pointers() && |reorder| == |list|
      ensures Pointers() && View() == old(View()) && |View().list| == |list| && pick == PickOf(View().list, reorder)
    {
      var i := 0;
      while i < |list| && !(list[i].state == PendingSent && !reorder[i])
        invariant i <= |list|
        invariant forall j :: 0 <= j < i && list[j].state == PendingSent ==> reorder[j]
      {
        i := i + 1;
      }
      pick := if i < |list| then Some(i) else None;
    }

    method HandlePendingSent(reorder: seq<bool>, a: Allow) returns (pick: Option<nat>, rc: Option<E.Rc>)
      requires Valid() && |reorder| == |list|
      modifies this`list, this`retired, Events(), afuEvent`host, afuEvent`avail
      ensures Valid() && Pickable(old(View()), pick)
      ensures |old(View()).list| == |reorder| && pick == PickOf(old(View()).list, reorder)
      ensures View() == CmdEngine.HandlePendingSent(old(View()), pick, a, rc == Some(E.Success))
        && Events() <= old(Events())
      ensures pick.None? || (!a.retry && a.failed) ==> rc.None? && afuEvent.View() == old(afuEvent.View())
      ensures pick.Some? && (a.retry || !a.failed) ==>
        rc.Some? && (rc.value, afuEvent.View()) == E.SendResp(old(afuEvent.View()),
          PostedFor(old(View()).list[pick.value].(resp := if a.retry then 0x02 else 0)).r)
    {
      hide Inv, Valid, View, Views, Pointers, ClientViews, Accessed, CmdEvent.View, E.SendResp, Resolve;
      Opened();
      ghost var s := View();
      pick := FindPendingSent(reorder);
      PendingSentInv(hostClSize, s, pick, a, true);
      PendingSentInv(hostClSize, s, pick, a, false);
      rc := None;
      if pick.Some? {
        var i := pick.value;
        CellAt(i);
        PointedAt(i);
        NotAccessed(s.list[i]);
        FinishIs(s, i, a);
        rc := PostCompletion(i, a);
      }
      Closed();
    }

    lemma FinishIs(s: State, i: nat, a: Allow)
      requires i < |s.list|
      ensures var e := s.list[i].(resp := if a.retry then 0x02 else if a.failed then 0x0f else 0);
        && Resolve(s, i, Finish(s.list[i], a, false)) == s.(list := s.list[i := e])
        && (!a.retry && a.failed ==> Resolve(s, i, Finish(s.list[i], a, true)) == s.(list := s.list[i := e]))
        && (a.retry || !a.failed ==> var n := Sent(e, PostedFor(e));
              Resolve(s, i, Finish(s.list[i], a, true)) == Resolve(s.(list := s.list[i := n]), i, Leaves(n)))
    {
    }

    /** The xlate_done or intrp_rdy for the command selected. */
    method PostCompletion(i: nat, a: Allow) returns (rc: Option<E.Rc>)
      requires Pointers() && i < |list| && forall c :: c in Clients() ==> c.memAccess != list[i]
      modifies this`list, this`retired, list[i], afuEvent`host, afuEvent`avail
      ensures Pointers() && View() == Resolve(old(View()), i, Finish(old(View()).list[i], a, rc == Some(E.Success)))
      ensures Events() <= old(Events())
      ensures !a.retry && a.failed ==> rc.None? && afuEvent.View() == old(afuEvent.View())
      ensures a.retry || !a.failed ==>
        rc.Some? && (rc.value, afuEvent.View()) == E.SendResp(old(afuEvent.View()),
          PostedFor(old(View()).list[i].(resp := if a.retry then 0x02 else 0)).r)
    {
      hide View, Views, Pointers, ClientViews, E.SendResp, Resolve, Finish, CmdEvent.View;
      ghost var s := View();
      CellAt(i);
      FinishIs(s, i, a);
      rc := list[i].Conclude(afuEvent, a);
      CellChanged(i);
      if rc == Some(E.Success) {
        Free(i);
      }
    }

    // ---------- requests to clients ----------

    /** A request is on the socket: the cell becomes its client's mem_access. */
    method Request(i: nat, state: MemState, req: HostReq)
      requires Pointers() && i < |list| && CmdEngine.Free(View(), View().list[i].context)
      modifies this`asked, {list[i]}, Clients()
      ensures Pointers() && list == old(list) && View() == Ask(old(View()), i, state, req)
      ensures asked == old(asked) + [req]
    {
      ghost var s := View();
      CellAt(i);
      FieldsOf(list[i]);
      var event := list[i];
      var c := client[event.context];
      assert c != null && c in Clients();
      event.state := state;
      c.memAccess := event;
      c.unanswered := c.unanswered + 1;
      asked := asked + [req];
      assert Views() == s.list[i := s.list[i].(state := state)];
      ghost var before := s.clients[event.context].value;
      assert ClientViews() == s.clients[event.context :=
        Some(before.(access := Some(event.afutag), unanswered := before.unanswered + 1))];
    }

    /** The four allow_* calls every request makes first. */
    method Refused(i: nat, opcode: Byte, a: Allow) returns (refused: bool)
      requires Pointers() && i < |list|
      modifies {list[i]}
      ensures Pointers() && refused == Refusal(a).Some?
      ensures !refused ==> View() == old(View())
      ensures refused ==>
        View() == old(View()).(list := old(View()).list[i := Fail(old(View()).list[i], opcode, Refusal(a).value)])
    {
      hide View, Views, Pointers, ClientViews, CmdEvent.View, Fail;
      CellAt(i);
      if a.retry {
        list[i].Refuse(opcode, 0x02);
      } else if a.failed {
        list[i].Refuse(opcode, 0x0e);
      } else if a.derror {
        list[i].Refuse(opcode, 0x08);
      } else if a.pending {
        list[i].Refuse(opcode, 0x04);
      } else {
        return false;
      }
      CellChanged(i);
      refused := true;
    }

    /** Whether the client of a command can be asked; context is its slot. */
    method ClientFree(i: nat) returns (free: bool)
      requires Pointers() && i < |list|
      ensures Pointers() && View() == old(View()) && free == CmdEngine.Free(View(), View().list[i].context)
    {
      CellAt(i);
      FieldsOf(list[i]);
      var context := list[i].context;
      free := context < |client| && client[context] != null && client[context].memAccess == null;
    }

    /** handle_buffer_write. */
    method HandleBufferWrite(a: Allow) returns (sent: Option<HostReq>)
      requires Valid()
      modifies this`asked, Events(), Clients()
      ensures Valid() && list == old(list) && View() == CmdEngine.HandleBufferWrite(old(View()), a)
      ensures asked == old(asked) + Opt(sent)
    {
      sent := None;
      hide Inv, Valid, View, Views, Pointers, ClientViews, First, CmdEvent.View, Fail, Ask, CmdEngine.Free;
      Opened();
      BufferWriteInv(hostClSize, View(), a);
      var i := Find(ToRead);
      if i < |list| {
        CellAt(i);
        FieldsOf(list[i]);
        var event := list[i];
        if event.state == Received && (IsRead(event.command) || IsPartialRead(event.command)) {
          event.Finish();
          CellChanged(i);
        } else if event.state == Idle {
          var free := ClientFree(i);
          if free {
            var refused := Refused(i, READ_FAILED, a);
            CellAt(i);
            FieldsOf(event);
            if !refused {
              var req := ReadReq(event.context, event.afutag, event.addr, event.size);
              Request(i, MemState.Request, req);
              sent := Some(req);
            }
          }
        }
      }
      Closed();
    }

    /** handle_afu_tlx_cmd_data_read. */
    method HandleCmdData()
      requires Valid()
      modifies Events(), afuEvent`afu
      ensures Valid() && list == old(list)
      ensures forall e :: e in old(View()).list && Picks(ToFill, e) ==> CanFill(e)
      ensures View() == CmdEngine.HandleCmdData(old(View()))
      ensures Staged(old(afuEvent.View()), View(), afuEvent.View())
    {
      hide Inv, Valid, View, Views, Pointers, ClientViews, First, CmdEvent.View, Gather, CanFill;
      Opened();
      ghost var s := View();
      CmdDataInv(hostClSize, s);
      var i := Find(ToFill);
      if i < |list| {
        CellAt(i);
        FieldsOf(list[i]);
        assert View().list[i] in View().list;
        var b := afuEvent.ReadCmdData();
        if b.Some? {
          list[i].TakeNext(b.value);
        }
        Gathered(i);
        assert s.list[i := s.list[i]] == s.list;
      }
      StagedData();
      Closed();
    }

    /** handle_afu_tlx_write_cmd. */
    method HandleWriteCmd(a: Allow) returns (sent: Option<HostReq>)
      requires Valid()
      modifies this`asked, Events(), Clients()
      ensures Valid() && list == old(list)
      ensures forall e :: e in old(View()).list && Picks(ToWrite, e) ==> CanWrite(e)
      ensures View() == CmdEngine.HandleWriteCmd(old(View()), a) && asked == old(asked) + Opt(sent)
    {
      sent := None;
      hide Inv, Valid, View, Views, Pointers, ClientViews, First, CmdEvent.View, Fail, Ask, CmdEngine.Free, CanWrite,
        WrittenBytes;
      Opened();
      WriteCmdInv(hostClSize, View(), a);
      var i := Find(ToWrite);
      if i < |list| {
        CellAt(i);
        FieldsOf(list[i]);
        var free := ClientFree(i);
        if free {
          var refused := Refused(i, WRITE_FAILED, a);
          if !refused {
            CellAt(i);
            var req := list[i].WriteRequest();
            Request(i, DmaResp, req);
            sent := Some(req);
          }
        }
      }
      Closed();
    }

    /** handle_write_be_or_amo. */
    method HandleOperate(a: Allow) returns (sent: Option<HostReq>)
      requires Valid()
      modifies this`asked, Events(), Clients()
      ensures Valid() && list == old(list)
      ensures forall e :: e in old(View()).list && Picks(ToOperate, e) ==> CanOperate(e)
      ensures View() == CmdEngine.HandleOperate(old(View()), a) && asked == old(asked) + Opt(sent)
    {
      sent := None;
      hide Inv, Valid, View, Views, Pointers, ClientViews, First, CmdEvent.View, Fail, Ask, CmdEngine.Free, OpReqOf,
        CanOperate;
      Opened();
      OperateInv(hostClSize, View(), a);
      var i := Find(ToOperate);
      if i < |list| {
        CellAt(i);
        FieldsOf(list[i]);
        var free := ClientFree(i);
        if free {
          var event := list[i];
          var refused := Refused(i,
              if event.typ == CmdAmoRd || event.typ == CmdAmoRw then READ_FAILED else WRITE_FAILED, a);
          CellAt(i);
          FieldsOf(event);
          if !refused {
            var req := event.OpRequest();
            Request(i, event.state, req);
            sent := Some(req);
          }
        }
      }
      Closed();
    }

    // ---------- answers from clients ----------

    /** The cell a client points at is the one its tag names. */
    lemma AccessCell(context: nat) returns (i: nat)
      requires Pointers() && ValidCl(hostClSize) && Inv(hostClSize, View())
      requires context < |client| && client[context] != null && client[context].memAccess != null
      ensures i < |list| && list[i] == client[context].memAccess
      ensures View().clients[context].Some? && View().clients[context].value.access == Some(list[i].afutag)
      ensures HasTag(View().list, list[i].afutag) && TagIndex(View().list, list[i].afutag) == i
    {
      hide Shape, Complete, Accessed;
      assert client[context] in Clients();
      i :| 0 <= i < |list| && list[i] == client[context].memAccess;
      var s := View();
      assert s.list[i] == list[i].View();
      assert HasTag(s.list, list[i].afutag);
      assert s.clients[context] == ClientView(client[context]);
    }

    /** `client->mem_access = NULL` */
    method ClearAccess(context: nat)
      requires Pointers() && context < |client| && client[context] != null
      modifies client[context]
      ensures Pointers() && client[context].memAccess == null && Released(old(View()), context, View())
    {
      ghost var s := View();
      var c := client[context];
      assert c in Clients();
      ClientAt(context);
      c.memAccess := null;
      c.unanswered := if c.unanswered > 0 then c.unanswered - 1 else 0;
      assert Views() == s.list;
      assert ClientViews() == s.clients[context := ClientView(c)];
    }

    /** OCSE_MEM_SUCCESS or OCSE_MEM_FAILURE in _handle_client. */
    method HandleAnswer(context: nat, ok: bool, bytes: seq<Byte>)
      requires Valid() && CanAnswer(View(), context, ok, bytes)
      modifies Events(), Clients()
      ensures Valid() && list == old(list) && View() == CmdEngine.HandleAnswer(old(View()), context, ok, bytes)
    {
      hide Inv, Valid, View, Views, Pointers, ClientViews, MemReturn, Aerror, CmdEvent.View, HasTag, CanStore;
      Opened();
      ghost var s := View();
      AnswerStepInv(hostClSize, s, context, ok, bytes);
      ClientAt(context);
      var c := client[context];
      if c.memAccess != null {
        ghost var i := AccessCell(context);
        CellAt(i);
        FieldsOf(list[i]);
        if ok {
          c.memAccess.Return(bytes);
        } else {
          c.memAccess.AddressError();
        }
        CellChanged(i);
        ClearAccess(context);
      }
      Closed();
    }

    lemma ClientAt(context: nat)
      requires Pointers()
      ensures |View().clients| == |client|
      ensures context < |client| ==> View().clients[context] == ClientView(client[context])
      ensures context < |client| && client[context] != null ==> client[context] in Clients()
    {
    }

    // ---------- commands arriving ----------

    /** _find_client_by_actag. */
    method FindClient(actag: U16) returns (context: Option<nat>)
      requires Pointers()
      ensures Pointers() && View() == old(View()) && context == FindByActag(View().clients, actag)
    {
      hide View, Views, Pointers, ClientViews, CmdEvent.View;
      ghost var s := View();
      ClientAt(0);
      var i := 0;
      while i < |client|
        invariant Pointers() && View() == s && i <= |client|
        invariant FindByActag(s.clients, actag) == FindByActagFrom(s.clients, actag, i)
      {
        ClientAt(i);
        if client[i] != null && client[i].actag == actag {
          return Some(i);
        }
        i := i + 1;
      }
      context := None;
    }

    method SetActag(i: nat, actag: U16)
      requires Pointers() && i < |client| && client[i] != null
      modifies client[i]
      ensures Pointers() && View().clients[i].Some?
      ensures old(View()).clients[i].Some? && View() == old(View()).(
        clients := old(View()).clients[i := Some(old(View()).clients[i].value.(actag := actag))])
    {
      ghost var s := View();
      assert client[i] in Clients();
      client[i].actag := actag;
      assert Views() == s.list;
      assert ClientViews() == s.clients[i := Some(s.clients[i].value.(actag := actag))];
    }

    /** _find_client_by_pasid_and_bdf; |client| when there is none. */
    method FindOwner(c: AfuCmd) returns (i: nat)
      requires Pointers()
      ensures Pointers() && View() == old(View()) && i <= |client| == |View().clients|
      ensures i < |client| ==> client[i] != null && View().clients[i].Some?
      ensures CmdEngine.AssignActag(View().clients, c, 0) == if i == |client| then View().clients
        else View().clients[i := Some(View().clients[i].value.(actag := c.actag))]
    {
      hide View, Views, Pointers, ClientViews, CmdEvent.View;
      ghost var s := View();
      ClientAt(0);
      i := 0;
      while i < |client|
        invariant Pointers() && View() == s && i <= |client|
        invariant CmdEngine.AssignActag(s.clients, c, 0) == CmdEngine.AssignActag(s.clients, c, i)
      {
        ClientAt(i);
        if client[i] != null && client[i].bdf == c.bdf && client[i].pasid == c.pasid {
          return;
        }
        i := i + 1;
      }
    }

    /** _assign_actag. */
    method AssignActag(c: AfuCmd)
      requires Pointers()
      modifies Clients()
      ensures Pointers() && View() == old(View()).(clients := CmdEngine.AssignActag(old(View()).clients, c, 0))
    {
      hide View, Views, Pointers, ClientViews, CmdEvent.View, CmdEngine.AssignActag;
      var i := FindOwner(c);
      if i < |client| {
        ClientAt(i);
        SetActag(i, c.actag);
      }
    }

    /** The cell is allocated and goes in at pos; allow_reorder decides where. */
    method NewCell(context: nat, c: AfuCmd, typ: CmdType, addr: U64, size: nat, state: MemState, resp: Byte,
        respOpcode: Byte,
                   pos: nat) returns (event: CmdEvent)
      requires Pointers() && pos <= |list|
      modifies this`list
      ensures Pointers() && fresh(event) && list == Cells(old(list), pos, event)
      ensures View() == old(View()).(list := Insert(old(View()).list, pos,
        NewEvent(context, c, typ, addr, size, state, resp, respOpcode)))
    {
      ghost var s, clients := View(), ClientViews();
      event := new CmdEvent(context, c, typ, addr, size, state, resp, respOpcode);
      hide NewEvent;
      list := list[..pos] + [event] + list[pos..];
      assert list[pos] == event;
      assert forall e :: e in old(list) ==> e in list;
      assert Views() == Insert(s.list, pos, event.View());
      assert ClientViews() == clients;
    }

    /** A beat that came with the command at pos: its own, or kept staged for the write still being assembled. */
    method GiveBeat(pos: nat, b: LineBeat)
      requires Pointers() && pos < |list| && !Picks(ToFill, View().list[pos])
      modifies {list[pos]}, afuEvent`afu
      ensures Pointers() && afuEvent.afu == old(afuEvent.afu).(cmdData := View().cdata)
      ensures View() == if DataExpected(old(View()).list) then old(View()).(cdata := Some(b))
                        else old(View()).(list := old(View()).list[pos := Fill(old(View()).list[pos], b)])
    {
      hide View, Views, Pointers, ClientViews, CmdEvent.View, Fill, Picks, First;
      ghost var s := View();
      var i := Find(ToFill);
      CellAt(pos);
      if i == |list| {
        list[pos].TakeFirst(b);
        CellChanged(pos);
      } else {
        afuEvent.RestoreCmdData(b);
        Gathered(pos);
        assert s.list[pos := s.list[pos]] == s.list;
      }
      StagedData();
    }

    lemma InsertExpected(list: seq<Ev>, pos: nat, e: Ev)
      requires pos <= |list| && !Picks(ToFill, e)
      ensures DataExpected(Insert(list, pos, e)) == DataExpected(list)
    {
      var t := Insert(list, pos, e);
      var f := First(list, ToFill);
      assert forall k :: 0 <= k < pos ==> t[k] == list[k];
      assert forall k :: pos < k < |t| ==> t[k] == list[k - 1];
      if f < |list| {
        assert t[if f < pos then f else f + 1] == list[f];
      }
    }

    /** _add_cmd, with _incoming_data_expected and the data that came with the command. */
    method AddCmd(context: nat, c: AfuCmd, typ: CmdType, addr: U64, size: nat, state: MemState, resp: Byte,
        respOpcode: Byte,
                  beat: Option<LineBeat>, pos: nat)
      requires Pointers() && pos <= |list| && state != Buffer
      modifies this`list, afuEvent`afu
      ensures Pointers() && fresh(Events() - old(Events()))
      ensures View() == CmdEngine.AddCmd(old(View()), NewEvent(context, c, typ, addr, size, state, resp, respOpcode),
        beat, pos)
      ensures afuEvent.afu == old(afuEvent.afu).(cmdData := View().cdata)
    {
      hide View, Views, Pointers, ClientViews, CmdEvent.View, Fill, Picks, First, NewEvent, DataExpected;
      ghost var s := View();
      ghost var e := NewEvent(context, c, typ, addr, size, state, resp, respOpcode);
      SameSize();
      NotFilling(context, c, typ, addr, size, state, resp, respOpcode);
      InsertExpected(s.list, pos, e);
      var event := NewCell(context, c, typ, addr, size, state, resp, respOpcode, pos);
      if beat.Some? {
        GiveBeat(pos, beat.value);
        assert Insert(s.list, pos, e)[pos := Fill(e, beat.value)] == Insert(s.list, pos, Fill(e, beat.value));
      }
      StagedData();
    }

    lemma SameSize()
      requires Pointers()
      ensures |View().list| == |list| && View().cdata == afuEvent.afu.cmdData && View().cmd == afuEvent.afu.cmd
    {
    }

    lemma StagedData()
      requires Pointers()
      ensures View().cdata == afuEvent.afu.cmdData && View().cmd == afuEvent.afu.cmd
    {
    }

    lemma NotFilling(context: nat, c: AfuCmd, typ: CmdType, addr: U64, size: nat, state: MemState, resp: Byte,
        respOpcode: Byte)
      requires state != Buffer
      ensures !Picks(ToFill, NewEvent(context, c, typ, addr, size, state, resp, respOpcode))
    {
    }

    /** The lookup by actag that ends every _add_*: a command whose actag matches no client is ignored. */
    method AddFound(c: AfuCmd, typ: CmdType, addr: U64, size: nat, state: MemState, resp: Byte, respOpcode: Byte,
                    beat: Option<LineBeat>, pos: nat)
      requires Pointers() && pos <= |list| && state != Buffer
      modifies this`list, afuEvent`afu
      ensures Pointers() && fresh(Events() - old(Events()))
      ensures View() == CmdEngine.AddFound(old(View()), c, typ, addr, size, state, resp, respOpcode, beat, pos)
      ensures afuEvent.afu == old(afuEvent.afu).(cmdData := View().cdata)
    {
      hide View, Views, Pointers, ClientViews, CmdEvent.View, CmdEngine.AddCmd, NewEvent, First, FindByActag;
      SameSize();
      var context := FindClient(c.actag);
      if context.Some? {
        AddCmd(context.value, c, typ, addr, size, state, resp, respOpcode, beat, pos);
      }
    }

    /** _add_fail. */
    method AddFail(c: AfuCmd, resp: Byte, respOpcode: Byte, pos: nat)
      requires Pointers() && pos <= |list|
      modifies this`list, afuEvent`afu
      ensures Pointers() && fresh(Events() - old(Events()))
      ensures View() == CmdEngine.AddFail(old(View()), c, resp, respOpcode, pos)
      ensures afuEvent.afu == old(afuEvent.afu).(cmdData := View().cdata)
    {
      hide View, Views, Pointers, ClientViews, CmdEvent.View, CmdEngine.AddFound;
      SameSize();
      AddFound(c, CmdFailed, 0, 0, Done, resp, respOpcode, None, pos);
    }

    /** _add_read, _add_write and _add_xlate_touch: both _aligned tests, then the client. */
    method AddChecked(c: AfuCmd, typ: CmdType, size: int, eventSize: int, state: MemState, failed: Byte, ok: Byte,
                      beat: Option<LineBeat>, pos: nat)
      requires Pointers() && pos <= |list|
      requires (size == -1 || size > 0) && (size > 0 ==> eventSize >= 0) && state != Buffer
      modifies this`list, afuEvent`afu
      ensures Pointers() && fresh(Events() - old(Events()))
      ensures View() == CmdEngine.AddChecked(old(View()), c, typ, size, eventSize, state, failed, ok, beat, pos)
      ensures afuEvent.afu == old(afuEvent.afu).(cmdData := View().cdata)
    {
      hide View, Views, Pointers, ClientViews, CmdEvent.View, CmdEngine.AddFound, CmdEngine.AddFail, AddrOf,
        AlignmentOf;
      SameSize();
      var addr := AddrOf(c);
      var aligned := AlignmentOf(addr, size);
      if aligned == BadSize {
        AddFail(c, 0x09, failed, pos);
      } else if aligned == BadOffset {
        AddFail(c, 0x0b, failed, pos);
      } else {
        AddFound(c, typ, addr, eventSize, state, 0, ok, beat, pos);
      }
    }

    /** _add_amo. */
    method AddAmo(c: AfuCmd, beat: Option<LineBeat>, pos: nat)
      requires Pointers() && pos <= |list|
      modifies this`list, afuEvent`afu
      ensures Pointers() && fresh(Events() - old(Events()))
      ensures View() == CmdEngine.AddAmo(old(View()), c, beat, pos)
      ensures afuEvent.afu == old(afuEvent.afu).(cmdData := View().cdata)
    {
      hide View, Views, Pointers, ClientViews, CmdEvent.View, CmdEngine.AddFound, CmdEngine.AddFail, AddrOf,
        AlignmentOf;
      SameSize();
      var asRead := IsAmoRw(c.opcode) || c.opcode == 0x38;
      var size := if c.pl in {2, 6} then 4 else 8;
      var addr := AddrOf(c);
      if AmoBadSize(c).Some? {
        AddFail(c, 0x09, AmoBadSize(c).value, pos);
      } else if addr % size != 0 {
        AddFail(c, 0x0b, if asRead then READ_FAILED else WRITE_FAILED, pos);
      } else {
        AddFound(c, AmoType(c.opcode), addr, size, Idle, 0, if asRead then READ_RESP else WRITE_RESP, beat, pos);
      }
    }

    /** _add_interrupt. */
    method AddInterrupt(c: AfuCmd, size: int, beat: Option<LineBeat>, pos: nat)
      requires Pointers() && pos <= |list|
      requires size >= -1
      modifies this`list, afuEvent`afu
      ensures Pointers() && fresh(Events() - old(Events()))
      ensures View() == CmdEngine.AddInterrupt(old(View()), c, size, beat, pos)
      ensures afuEvent.afu == old(afuEvent.afu).(cmdData := View().cdata)
    {
      hide View, Views, Pointers, ClientViews, CmdEvent.View, CmdEngine.AddFound, AddrOf;
      SameSize();
      var wake := c.opcode == 0x5c;
      AddFound(c, if wake then CmdWake else CmdInterrupt, AddrOf(c), if size == -1 then 65535 else size, Idle, 0,
               if wake then WAKE_RESP else INTRP_RESP, beat, pos);
    }

    /** `afu_tlx_cdata_valid = 1`: commands without data put a beat they came with back. */
    method Restore(beat: Option<LineBeat>)
      requires Pointers() && View().cdata.None?
      modifies afuEvent`afu
      ensures Pointers() && View() == old(View()).(cdata := beat)
      ensures afuEvent.afu == old(afuEvent.afu).(cmdData := beat)
    {
      ghost var s := View();
      if beat.Some? {
        afuEvent.RestoreCmdData(beat.value);
      }
      assert Views() == s.list && ClientViews() == s.clients;
    }

    /** _parse_cmd. */
    method ParseCmd(c: AfuCmd, beat: Option<LineBeat>, pos: nat)
      requires Pointers() && pos <= |list|
      requires View().cdata.None?
      modifies this`list, Clients(), afuEvent`afu
      ensures Pointers() && fresh(Events() - old(Events()))
      ensures View() == CmdEngine.ParseCmd(old(View()), c, beat, pos)
      ensures afuEvent.afu == old(afuEvent.afu).(cmdData := View().cdata)
    {
      SameSize();
      hide View, Views, Pointers, ClientViews, CmdEvent.View, CmdEngine.AddFail, CmdEngine.AddChecked,
        CmdEngine.AddAmo, CmdEngine.AddInterrupt, CmdEngine.AssignActag, AddrOf;
      var o := c.opcode;
      if o == 0x50 {
        Restore(beat);
        AssignActag(c);
      } else if IsRead(o) {
        Restore(beat);
        AddChecked(c, CmdRead, DlToSize(c.dl), DlToSize(c.dl), Idle, READ_FAILED, READ_RESP, None, pos);
      } else if IsPartialRead(o) {
        Restore(beat);
        AddChecked(c, CmdRead, PlToSize(c.pl), PlToSize(c.pl), Idle, READ_FAILED, READ_RESP, None, pos);
      } else if IsWrite(o) {
        AddChecked(c, CmdWrite, DlToSize(c.dl), DlToSize(c.dl), Idle, WRITE_FAILED, WRITE_RESP, beat, pos);
      } else if IsPartialWrite(o) {
        AddChecked(c, CmdWrite, PlToSize(c.pl), PlToSize(c.pl), Idle, WRITE_FAILED, WRITE_RESP, beat, pos);
      } else if IsWriteBe(o) {
        AddChecked(c, CmdWrBe, 64, 64, Idle, WRITE_FAILED, WRITE_RESP, beat, pos);
      } else if IsAmoRd(o) || IsAmoRw(o) || IsAmoW(o) {
        AddAmo(c, beat, pos);
      } else if IsInterrupt(o) {
        AddInterrupt(c, if o == 0x5a then PlToSize(c.pl) else 0, beat, pos);
      } else if IsTouch(o) {
        Restore(beat);
        AddChecked(c, CmdTouch, 64, 0, Done, TOUCH_RESP, TOUCH_RESP, None, pos);
      } else if o != 0 {
        AddFail(c, RESPONSE_FAILED, RESPONSE_FAILED, pos);
      }
    }

    /** handle_cmd. */
    method HandleCmd(pos: nat)
      requires Valid() && pos <= |list|
      modifies this`list, Clients(), afuEvent`afu
      ensures Valid() && View() == CmdEngine.HandleCmd(old(View()), pos) && fresh(Events() - old(Events()))
      ensures Staged(old(afuEvent.View()), View(), afuEvent.View())
    {
      hide Inv, Valid, View, Views, Pointers, ClientViews, CmdEvent.View, CmdEngine.ParseCmd;
      Opened();
      ghost var s := View();
      CmdInv(hostClSize, s, pos);
      SameSize();
      var got := TakeCmd();
      if got.Some? {
        var duplicate := HasCell(got.value.0.afutag);
        if !duplicate {
          ParseCmd(got.value.0, got.value.1, pos);
        }
      }
      StagedData();
      Closed();
    }

    /** afu_tlx_read_cmd_and_data. */
    method TakeCmd() returns (got: Option<(AfuCmd, Option<LineBeat>)>)
      requires Pointers()
      modifies afuEvent`afu
      ensures Pointers() && (got.None? <==> old(View()).cmd.None?)
      ensures got.None? ==> View() == old(View())
      ensures got.Some? ==> got.value == (old(View()).cmd.value, old(View()).cdata)
      ensures got.Some? ==> View() == old(View()).(cmd := None, cdata := None)
      ensures Staged(old(afuEvent.View()), View(), afuEvent.View())
    {
      ghost var s := View();
      got := afuEvent.ReadCmdAndData();
      assert Views() == s.list && ClientViews() == s.clients;
    }

    /** The search for a duplicate afutag. */
    method HasCell(tag: U16) returns (found: bool)
      requires Pointers()
      ensures Pointers() && View() == old(View()) && found == HasTag(View().list, tag)
    {
      var i := 0;
      while i < |list|
        invariant i <= |list| && forall j :: 0 <= j < i ==> list[j].afutag != tag
      {
        if list[i].afutag == tag {
          assert View().list[i].afutag == tag;
          return true;
        }
        i := i + 1;
      }
      found := false;
    }
  }

  /** Where a cell is linked in. */
  ghost function Cells(list: seq<CmdEvent>, pos: nat, event: CmdEvent): seq<CmdEvent>
    requires pos <= |list|
  {
    list[..pos] + [event] + list[pos..]
  }

  /** One client's access has ended. */
  predicate Released(s: State, context: nat, t: State) {
    && context < |s.clients| && s.clients[context].Some?
    && var c := s.clients[context].value;
    t == s.(clients := s.clients[context := Some(c.(access := None,
        unanswered := if c.unanswered > 0 then c.unanswered - 1 else 0))])
  }

  /** Only the staged command and data beat of the link have changed, to those of s. */
  predicate Staged(before: E.Event, s: State, after: E.Event) {
    after == before.(afu := before.afu.(cmd := s.cmd, cmdData := s.cdata))
  }

  /** What handle_response asked of the link: nothing, or to send the answer of the command it selected. */
  predicate AnswerTried(cl: nat, s: State, before: E.Event, bdi: Byte, rc: Option<E.Rc>, after: E.Event)
  {
    var i := First(s.list, ToRespond);
    if i == |s.list| then rc.None? && after == before
    else
      && (AnswersWithData(NextPart(cl, s.list[i])) ==> PayloadInBuffer(NextPart(cl, s.list[i])))
      && rc.Some? && (rc.value, after) == SendMsg(before, NextPart(cl, s.list[i]), bdi)
  }
}