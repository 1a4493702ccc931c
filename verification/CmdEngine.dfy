/** The AFU command engine of ocse/cmd.c on values: the list of commands in flight and the effect of each
    handler of _handle_afu, with every allow_* call and the outcome of every send as a free choice. */
module CmdEngine {
  import opened Common
  import opened TlxPacket
  import TlxEvent

  datatype CmdType =
    | CmdRead | CmdWrite | CmdTouch | CmdInterrupt | CmdWake
    | CmdWrBe | CmdAmoRd | CmdAmoRw | CmdAmoWr | CmdFailed

  /** The mem_state values the handlers of this model assign. */
  datatype MemState =
    | Idle | XlatePending | IntPending | PendingSent | Buffer | Request | Received | DmaResp | Done

  /** What one successful call of tlx_afu_send_resp, _resp_and_data or _posted_cmd hands to the link. */
  datatype Msg = Msg(r: HostResp, data: Option<seq<Byte>>)

  /** struct cmd_event, followed by its history: the messages sent for it, how many refused continuations came
      before each, refusals so far, the data beats copied into it, what the application returned for it, the command
      as it came and whether the application denied it. */
  datatype Ev = Ev(
    afutag: U16, context: nat, command: Byte, typ: CmdType, addr: U64, size: nat, state: MemState,
    resp: Byte, respDl: Byte, respDp: nat, respOpcode: Byte, dpartial: nat, bytesSent: nat, data: seq<Byte>,
    wrBe: U64, flag: Byte, endian: Byte,
    hist: seq<Msg>, skips: seq<nat>, refused: nat, beats: seq<Line>, returned: seq<Byte>,
    came: AfuCmd, denied: bool)

  /** The fields of struct client that the engine uses; unanswered counts requests the application has not
      answered yet. */
  datatype Client = Client(actag: U16, bdf: U16, pasid: U32, access: Option<U16>, unanswered: nat)

  /** A memory request put on a client's socket. */
  datatype HostReq =
    | ReadReq(context: nat, afutag: U16, addr: U64, size: nat)
    | WriteReq(context: nat, afutag: U16, addr: U64, bytes: seq<Byte>)
    | WriteBeReq(context: nat, afutag: U16, addr: U64, wrBe: U64, bytes: seq<Byte>)
    | AmoReq(context: nat, afutag: U16, addr: U64, typ: CmdType, size: nat, flag: Byte, endian: Byte, bytes: seq<Byte>)

  /** An interrupt or wake-up put on a client's socket, byte by byte. */
  datatype Notice = Notice(context: nat, bytes: seq<Byte>)

  /** The engine with the command and data beat staged by tlx_get_afu_events, and its histories: commands that left
      the list, memory requests made and notices given. */
  datatype State = State(
    list: seq<Ev>, clients: seq<Option<Client>>, cmd: Option<AfuCmd>, cdata: Option<LineBeat>,
    retired: seq<Ev>, asked: seq<HostReq>, notices: seq<Notice>)

  /** The answers of the allow_* calls of one handler. */
  datatype Allow = Allow(retry: bool, failed: bool, derror: bool, pending: bool)

  const UNREFUSED := Allow(false, false, false, false)

  // ---------- opcodes (common/tlx_interface_t.h) ----------

  const READ_FAILED: Byte := 0x05
  const WRITE_FAILED: Byte := 0x09
  const READ_RESP: Byte := 0x04
  const WRITE_RESP: Byte := 0x08
  const TOUCH_RESP: Byte := 0x02
  const INTRP_RESP: Byte := 0x0c
  const WAKE_RESP: Byte := 0x10
  const XLATE_DONE: Byte := 0x18
  const INTRP_RDY: Byte := 0x1a
  const RESPONSE_FAILED: Byte := 15

  predicate IsRead(command: Byte) { command in {0x10, 0x14} }
  predicate IsPartialRead(command: Byte) { command in {0x12, 0x16} }
  predicate IsWrite(command: Byte) { command in {0x20, 0x24} }
  predicate IsPartialWrite(command: Byte) { command in {0x30, 0x34} }
  predicate IsWriteBe(command: Byte) { command in {0x28, 0x2c} }
  predicate IsAmoRd(command: Byte) { command in {0x38, 0x3c} }
  predicate IsAmoRw(command: Byte) { command in {0x40, 0x44} }
  predicate IsAmoW(command: Byte) { command in {0x48, 0x4c} }
  predicate IsInterrupt(command: Byte) { command in {0x58, 0x5a, 0x5c} }
  predicate IsTouch(command: Byte) { command in {0x78, 0x7c} }

  // ---------- scanning the list ----------

  datatype Scan = ToRespond | ToRead | ToFill | ToWrite | ToInterrupt | ToOperate

  /** The condition on which each handler's scan stops. */
  predicate Picks(k: Scan, e: Ev) {
    match k
    case ToRespond => e.state in {Done, XlatePending, IntPending}
    case ToRead => e.typ == CmdRead && e.state != Done
    case ToFill => e.typ == CmdWrite && e.state == Buffer
    case ToWrite => e.typ == CmdWrite && e.state == Received
    case ToInterrupt => e.typ in {CmdInterrupt, CmdWake} && e.state in {Idle, Received}
    case ToOperate => e.typ in {CmdWrBe, CmdAmoWr, CmdAmoRw, CmdAmoRd} && e.state == Received
  }

  function First(list: seq<Ev>, k: Scan): (i: nat)
    ensures i <= |list|
    ensures i < |list| ==> Picks(k, list[i])
    ensures forall j :: 0 <= j < i ==> !Picks(k, list[j])
  {
    if list == [] then 0
    else if Picks(k, list[0]) then 0
    else 1 + First(list[1..], k)
  }

  function Remove(list: seq<Ev>, i: nat): seq<Ev>
    requires i < |list|
  {
    list[..i] + list[i + 1..]
  }

  predicate HasTag(list: seq<Ev>, tag: U16) {
    exists i :: 0 <= i < |list| && list[i].afutag == tag
  }

  // ---------- handle_response ----------

  predicate ValidCl(cl: nat) { cl in {64, 128, 256} }

  /** A full read or write longer than HOST_CL_SIZE is answered in parts. */
  predicate Splits(cl: nat, e: Ev) {
    e.typ != CmdFailed && (IsRead(e.command) || IsWrite(e.command)) && e.size > cl
  }

  /** The fields the handler changes before it tries to send. */
  function NextPart(cl: nat, e: Ev): Ev {
    if Splits(cl, e) then
      e.(respDp := if e.bytesSent == 0 then e.respDp else if cl == 128 then 2 else e.respDp + 1,
         respDl := SizeToDl(cl), bytesSent := e.bytesSent + cl)
    else e
  }

  /** Whether a response carries data. */
  predicate AnswersWithData(e: Ev) {
    e.typ != CmdFailed && (IsRead(e.command) || IsPartialRead(e.command) || IsAmoRd(e.command) || IsAmoRw(e.command))
  }

  predicate PayloadInBuffer(e: Ev) {
    1 <= e.respDl <= 3 && e.respDp % 256 % 4 * 64 + DlToSize(e.respDl) <= |e.data|
  }

  function RespOf(e: Ev): HostResp {
    HostResp(e.respOpcode, e.afutag, if AnswersWithData(e) then 0 else e.resp, 0, e.respDl, e.respDp % 256)
  }

  function MsgOf(e: Ev): Msg
    requires AnswersWithData(e) ==> PayloadInBuffer(e)
  {
    Msg(RespOf(e), if AnswersWithData(e) then Some(TlxEvent.RespSlice(RespOf(e), e.data)) else None)
  }

  /** What the link does with the response of a command. */
  function SendMsg(a: TlxEvent.Event, e: Ev, bdi: Byte): (TlxEvent.Rc, TlxEvent.Event)
    requires AnswersWithData(e) ==> PayloadInBuffer(e)
  {
    if AnswersWithData(e) then TlxEvent.SendRespAndData(a, RespOf(e), bdi, e.data) else TlxEvent.SendResp(a, RespOf(e))
  }

  /** The event after a message was accepted for it. */
  function Sent(e: Ev, m: Msg): Ev {
    e.(hist := e.hist + [m], skips := e.skips + [e.refused])
  }

  predicate MoreParts(e: Ev) { e.bytesSent > 0 && e.bytesSent != e.size }

  predicate CanSend(cl: nat, e: Ev) {
    && (AnswersWithData(e) ==> PayloadInBuffer(NextPart(cl, e)))
    && (NextPart(cl, e).bytesSent != 0 ==> NextPart(cl, e).bytesSent >= cl)
  }

  predicate CanRespond(cl: nat, s: State) {
    var i := First(s.list, ToRespond);
    i < |s.list| ==> CanSend(cl, s.list[i])
  }

  /** Whether a command is still on the list after a handler, and as what. */
  datatype Fate = Stays(e: Ev) | Leaves(e: Ev)

  /** A message accepted or refused by the link; a refusal backs up the byte count of a part, not its dp. */
  function Answer(cl: nat, e: Ev, accept: bool): Fate
    requires CanSend(cl, e)
  {
    var p := NextPart(cl, e);
    if accept then
      var n := Sent(p, MsgOf(p));
      if n.state in {XlatePending, IntPending} then Stays(n.(state := PendingSent))
      else if MoreParts(n) then Stays(n)
      else Leaves(n)
    else
      Stays(p.(bytesSent := if p.bytesSent != 0 then p.bytesSent - cl else 0,
               refused := if e.bytesSent != 0 then p.refused + 1 else p.refused))
  }

  function Resolve(s: State, i: nat, f: Fate): State
    requires i < |s.list|
  {
    match f
    case Stays(e) => s.(list := s.list[i := e])
    case Leaves(e) => s.(list := Remove(s.list, i), retired := s.retired + [e])
  }

  function HandleResponse(cl: nat, s: State, accept: bool): State
    requires CanRespond(cl, s)
  {
    var i := First(s.list, ToRespond);
    if i == |s.list| then s else Resolve(s, i, Answer(cl, s.list[i], accept))
  }

  // ---------- handle_buffer_write ----------

  predicate Free(s: State, context: nat) {
    context < |s.clients| && s.clients[context].Some? && s.clients[context].value.access.None?
  }

  function Fail(e: Ev, opcode: Byte, code: Byte): Ev {
    e.(state := if code == 4 then XlatePending else Done, typ := CmdFailed, respOpcode := opcode, resp := code)
  }

  /** The first of retry, failed, derror and pending that is allowed, as a response code. */
  function Refusal(a: Allow): Option<Byte> {
    if a.retry then Some(0x02) else if a.failed then Some(0x0e) else if a.derror then Some(0x08)
    else if a.pending then Some(0x04) else None
  }

  /** Puts a request on the client's socket and makes the event its one outstanding access. */
  function Ask(s: State, i: nat, state: MemState, req: HostReq): State
    requires i < |s.list| && Free(s, s.list[i].context)
  {
    var e := s.list[i];
    var c := s.clients[e.context].value;
    s.(list := s.list[i := e.(state := state)],
       clients := s.clients[e.context := Some(c.(access := Some(e.afutag), unanswered := c.unanswered + 1))],
       asked := s.asked + [req])
  }

  function HandleBufferWrite(s: State, a: Allow): State {
    var i := First(s.list, ToRead);
    if i == |s.list| then s
    else
      var e := s.list[i];
      if e.state == Received && (IsRead(e.command) || IsPartialRead(e.command)) then
        s.(list := s.list[i := e.(resp := 0, state := Done)])
      else if e.state != Idle || !Free(s, e.context) then s
      else if Refusal(a).Some? then s.(list := s.list[i := Fail(e, READ_FAILED, Refusal(a).value)])
      else Ask(s, i, Request, ReadReq(e.context, e.afutag, e.addr, e.size))
  }

  // ---------- handle_xlate_intrp_pending_sent ----------

  predicate Pickable(s: State, pick: Option<nat>) {
    pick.Some? ==> pick.value < |s.list| && s.list[pick.value].state == PendingSent
  }

  /** Where the scan of handle_xlate_intrp_pending_sent stops, given allow_reorder's answer at each command. */
  function PickOf(list: seq<Ev>, reorder: seq<bool>): (pick: Option<nat>)
    requires |reorder| == |list|
    ensures pick.Some? ==> pick.value < |list| && list[pick.value].state == PendingSent && !reorder[pick.value]
    ensures forall j :: 0 <= j < (if pick.Some? then pick.value else |list|) ==>
      list[j].state != PendingSent || reorder[j]
  {
    if list == [] then None
    else if list[0].state == PendingSent && !reorder[0] then Some(0)
    else
      var rest := PickOf(list[1..], reorder[1..]);
      if rest.Some? then Some(rest.value + 1) else None
  }

  function PostedFor(e: Ev): Msg {
    Msg(HostResp(if 0x58 <= e.command <= 0x5d then INTRP_RDY else XLATE_DONE, e.afutag, e.resp, 0, 0, 0), None)
  }

  function Finish(e: Ev, a: Allow, accept: bool): Fate {
    var f := e.(resp := if a.retry then 0x02 else if a.failed then 0x0f else 0);
    if !a.retry && a.failed then Stays(f)
    else if accept then Leaves(Sent(f, PostedFor(f)))
    else Stays(f)
  }

  /** pick is where the scan stops: any PENDING_SENT command, or none, as allow_reorder decides. */
  function HandlePendingSent(s: State, pick: Option<nat>, a: Allow, accept: bool): State
    requires Pickable(s, pick)
  {
    if pick.None? then s else Resolve(s, pick.value, Finish(s.list[pick.value], a, accept))
  }

  // ---------- handle_cmd ----------

  function FindByActag(clients: seq<Option<Client>>, actag: U16): (r: Option<nat>)
    ensures r.Some? ==> r.value < |clients| && clients[r.value].Some? && clients[r.value].value.actag == actag
    ensures r.Some? ==> forall i :: 0 <= i < r.value && clients[i].Some? ==> clients[i].value.actag != actag
    ensures r.None? ==> forall i :: 0 <= i < |clients| && clients[i].Some? ==> clients[i].value.actag != actag
  {
    FindByActagFrom(clients, actag, 0)
  }

  function FindByActagFrom(clients: seq<Option<Client>>, actag: U16, from: nat): (r: Option<nat>)
    requires from <= |clients|
    ensures r.Some? ==> from <= r.value < |clients| && clients[r.value].Some? && clients[r.value].value.actag == actag
    ensures r.Some? ==> forall i :: from <= i < r.value && clients[i].Some? ==> clients[i].value.actag != actag
    ensures r.None? ==> forall i :: from <= i < |clients| && clients[i].Some? ==> clients[i].value.actag != actag
    decreases |clients| - from
  {
    if from == |clients| then None
    else if clients[from].Some? && clients[from].value.actag == actag then Some(from)
    else FindByActagFrom(clients, actag, from + 1)
  }

  predicate Owns(o: Option<Client>, c: AfuCmd) {
    o.Some? && o.value.bdf == c.bdf && o.value.pasid == c.pasid
  }

  /** _assign_actag: the first client with the command's bdf and pasid takes the actag. */
  function AssignActag(clients: seq<Option<Client>>, c: AfuCmd, from: nat): (r: seq<Option<Client>>)
    requires from <= |clients|
    ensures |r| == |clients|
    ensures forall i :: 0 <= i < |clients| ==>
      if from <= i && Owns(clients[i], c) && (forall j :: from <= j < i ==> !Owns(clients[j], c))
      then r[i] == Some(clients[i].value.(actag := c.actag))
      else r[i] == clients[i]
    decreases |clients| - from
  {
    if from == |clients| then clients
    else if Owns(clients[from], c) then
      clients[from := Some(clients[from].value.(actag := c.actag))]
    else AssignActag(clients, c, from + 1)
  }

  /** The first eight bytes of cmd_ea_or_obj, copied into a little-endian uint64_t. */
  function AddrOf(c: AfuCmd): U64 {
    var b := c.eaOrObj;
    From64([b[7], b[6], b[5], b[4], b[3], b[2], b[1], b[0]])
  }

  /** The address bytes of address 0. */
  const OBJ: Obj9 := [0, 0, 0, 0, 0, 0, 0, 0, 0]

  function ClearedBuffer(): (s: seq<Byte>)
    ensures |s| == 256 && s[..64] == Zeros(64) && s[64..] == Zeros(192)
  {
    Zeros(256)
  }

  predicate IsAmo(typ: CmdType) { typ in {CmdAmoRd, CmdAmoRw, CmdAmoWr} }
  predicate TakesFlag(typ: CmdType) { IsAmo(typ) || typ in {CmdInterrupt, CmdWake} }

  /** What _add_cmd allocates; byte enables, flag and endian are those each _add_* passes on. */
  function NewEvent(context: nat, c: AfuCmd, typ: CmdType, addr: U64, size: nat, state: MemState, resp: Byte,
      respOpcode: Byte): Ev {
    Ev(c.afutag, context, c.opcode, typ, addr, size, state,
       resp, if size <= 64 then 1 else SizeToDl(size), 0, respOpcode, 0, 0, ClearedBuffer(),
       if typ == CmdWrBe then c.be else 0, if TakesFlag(typ) then c.flag else 0, if IsAmo(typ) then c.endian else 0,
       [], [], 0, [], [], c, false)
  }

  predicate DataExpected(list: seq<Ev>) {
    First(list, ToFill) < |list|
  }

  /** The first 64 bytes of data that came with the command. */
  function Fill(e: Ev, b: LineBeat): Ev {
    var f := e.(data := if |e.data| >= 64 then b.bytes + e.data[64..] else b.bytes, beats := [b.bytes]);
    if e.typ == CmdInterrupt then f
    else if e.size > 64 then f.(dpartial := 64, state := Buffer)
    else f.(dpartial := 0, state := Received)
  }

  function Insert(list: seq<Ev>, pos: nat, e: Ev): seq<Ev>
    requires pos <= |list|
  {
    list[..pos] + [e] + list[pos..]
  }

  /** _add_cmd: the event goes in at the place allow_reorder chooses; a beat read with the command is its own
      unless another write is still waiting for beats, which then keeps it staged. */
  function AddCmd(s: State, e: Ev, beat: Option<LineBeat>, pos: nat): State
    requires pos <= |s.list|
  {
    if beat.None? then s.(list := Insert(s.list, pos, e))
    else if DataExpected(s.list) then s.(list := Insert(s.list, pos, e), cdata := beat)
    else s.(list := Insert(s.list, pos, Fill(e, beat.value)))
  }

  /** How every _add_* ends: the client is looked up by actag, and a command whose actag matches none is ignored. */
  function AddFound(s: State, c: AfuCmd, typ: CmdType, addr: U64, size: nat, state: MemState, resp: Byte,
      respOpcode: Byte,
                    beat: Option<LineBeat>, pos: nat): State
    requires pos <= |s.list|
  {
    var context := FindByActag(s.clients, c.actag);
    if context.None? then s
    else AddCmd(s, NewEvent(context.value, c, typ, addr, size, state, resp, respOpcode), beat, pos)
  }

  /** _add_fail. */
  function AddFail(s: State, c: AfuCmd, resp: Byte, respOpcode: Byte, pos: nat): State
    requires pos <= |s.list|
  {
    AddFound(s, c, CmdFailed, 0, 0, Done, resp, respOpcode, None, pos)
  }

  datatype Alignment = BadSize | BadOffset | Aligned

  /** _aligned. The size helpers give -1 or a power of two; -1 as a uint32_t is no power of two. */
  function AlignmentOf(addr: U64, size: int): (a: Alignment)
    requires size == -1 || size > 0
    ensures a == BadSize <==> size == -1
  {
    if size == -1 then BadSize else if addr % size != 0 then BadOffset else Aligned
  }

  /** Checks a read, write or touch and adds it, or adds its failure. */
  function AddChecked(s: State, c: AfuCmd, typ: CmdType, size: int, eventSize: int, state: MemState, failed: Byte,
      ok: Byte,
                      beat: Option<LineBeat>, pos: nat): State
    requires pos <= |s.list| && (size == -1 || size > 0) && (size > 0 ==> eventSize >= 0)
  {
    var addr := AddrOf(c);
    match AlignmentOf(addr, size)
    case BadSize => AddFail(s, c, 0x09, failed, pos)
    case BadOffset => AddFail(s, c, 0x0b, failed, pos)
    case Aligned => AddFound(s, c, typ, addr, eventSize, state, 0, ok, beat, pos)
  }

  function AmoType(command: Byte): CmdType {
    if IsAmoRd(command) then CmdAmoRd else if IsAmoRw(command) then CmdAmoRw else CmdAmoWr
  }

  /** The response opcode of a failed _add_amo size check. */
  function AmoBadSize(c: AfuCmd): Option<Byte> {
    if c.pl in {2, 3} then
      if IsAmoRw(c.opcode) && c.flag >= 8 then Some(READ_FAILED) else None
    else if c.pl in {6, 7} then
      if IsAmoW(c.opcode) then Some(WRITE_FAILED) else None
    else Some(if IsAmoRw(c.opcode) then READ_FAILED else WRITE_FAILED)
  }

  /** _add_amo. The opcode 0x3c (amo_rd.n) is missing from the lists that choose a read response. */
  function AddAmo(s: State, c: AfuCmd, beat: Option<LineBeat>, pos: nat): State
    requires pos <= |s.list|
  {
    var asRead := IsAmoRw(c.opcode) || c.opcode == 0x38;
    var size := if c.pl in {2, 6} then 4 else 8;
    if AmoBadSize(c).Some? then AddFail(s, c, 0x09, AmoBadSize(c).value, pos)
    else if AddrOf(c) % size != 0 then AddFail(s, c, 0x0b, if asRead then READ_FAILED else WRITE_FAILED, pos)
    else
      AddFound(s, c, AmoType(c.opcode), AddrOf(c), size, Idle, 0, if asRead then READ_RESP else WRITE_RESP, beat, pos)
  }

  /** _add_interrupt; an unsupported pl becomes 65535 in the uint16_t size. */
  function AddInterrupt(s: State, c: AfuCmd, size: int, beat: Option<LineBeat>, pos: nat): State
    requires pos <= |s.list| && size >= -1
  {
    var wake := c.opcode == 0x5c;
    AddFound(s, c, if wake then CmdWake else CmdInterrupt, AddrOf(c), if size == -1 then 65535 else size, Idle, 0,
             if wake then WAKE_RESP else INTRP_RESP, beat, pos)
  }

  /** _parse_cmd. */
  function ParseCmd(s: State, c: AfuCmd, beat: Option<LineBeat>, pos: nat): State
    requires pos <= |s.list|
  {
    var r := s.(cdata := beat);   // the beat is staged again for the command it belongs to
    var o := c.opcode;
    if o == 0x50 then r.(clients := AssignActag(s.clients, c, 0))
    else if IsRead(o) then AddChecked(r, c, CmdRead, DlToSize(c.dl), DlToSize(c.dl), Idle, READ_FAILED, READ_RESP,
        None, pos)
    else if IsPartialRead(o) then AddChecked(r, c, CmdRead, PlToSize(c.pl), PlToSize(c.pl), Idle, READ_FAILED,
        READ_RESP, None, pos)
    else if IsWrite(o) then AddChecked(s, c, CmdWrite, DlToSize(c.dl), DlToSize(c.dl), Idle, WRITE_FAILED, WRITE_RESP,
        beat, pos)
    else if IsPartialWrite(o) then AddChecked(s, c, CmdWrite, PlToSize(c.pl), PlToSize(c.pl), Idle, WRITE_FAILED,
        WRITE_RESP, beat, pos)
    else if IsWriteBe(o) then AddChecked(s, c, CmdWrBe, 64, 64, Idle, WRITE_FAILED, WRITE_RESP, beat, pos)
    else if IsAmoRd(o) || IsAmoRw(o) || IsAmoW(o) then AddAmo(s, c, beat, pos)
    else if IsInterrupt(o) then AddInterrupt(s, c, if o == 0x5a then PlToSize(c.pl) else 0, beat, pos)
    else if o == 0 then s
    else if IsTouch(o) then AddChecked(r, c, CmdTouch, 64, 0, Done, TOUCH_RESP, TOUCH_RESP, None, pos)
    else AddFail(s, c, RESPONSE_FAILED, RESPONSE_FAILED, pos)
  }

  /** handle_cmd: a command with a tag already in flight is ignored, together with any beat read with it. */
  function HandleCmd(s: State, pos: nat): State
    requires pos <= |s.list|
  {
    if s.cmd.None? then s
    else
      var taken := s.(cmd := None, cdata := None);
      if HasTag(s.list, s.cmd.value.afutag) then taken
      else ParseCmd(taken, s.cmd.value, s.cdata, pos)
  }

  // ---------- handle_afu_tlx_cmd_data_read, handle_afu_tlx_write_cmd ----------

  predicate CanFill(e: Ev) {
    e.dpartial <= e.size <= |e.data|
  }

  /** One more beat for a write in MEM_BUFFER; the last one may be shorter than 64 bytes. */
  function Gather(e: Ev, b: LineBeat): Ev
    requires CanFill(e)
  {
    var left := e.size - e.dpartial;
    var f := e.(beats := e.beats + [b.bytes]);
    if left > 64 then
      f.(data := e.data[..e.dpartial] + b.bytes + e.data[e.dpartial + 64..], dpartial := e.dpartial + 64)
    else
      f.(data := e.data[..e.dpartial] + b.bytes[..left] + e.data[e.size..], state := Received)
  }

  function HandleCmdData(s: State): State
    requires forall e :: e in s.list && Picks(ToFill, e) ==> CanFill(e)
  {
    var i := First(s.list, ToFill);
    if i == |s.list| || s.cdata.None? then s
    else s.(list := s.list[i := Gather(s.list[i], s.cdata.value)], cdata := None)
  }

  predicate CanWrite(e: Ev) {
    if e.size <= 32 then e.addr % 64 + e.size <= |e.data| else e.size <= |e.data|
  }

  /** The bytes of a write request: a partial write finds its bytes at their place in the line. */
  function WrittenBytes(e: Ev): seq<Byte>
    requires CanWrite(e)
  {
    if e.size <= 32 then e.data[e.addr % 64..e.addr % 64 + e.size] else e.data[..e.size]
  }

  function HandleWriteCmd(s: State, a: Allow): State
    requires forall e :: e in s.list && Picks(ToWrite, e) ==> CanWrite(e)
  {
    var i := First(s.list, ToWrite);
    if i == |s.list| || !Free(s, s.list[i].context) then s
    else
      var e := s.list[i];
      if Refusal(a).Some? then s.(list := s.list[i := Fail(e, WRITE_FAILED, Refusal(a).value)])
      else Ask(s, i, DmaResp, WriteReq(e.context, e.afutag, e.addr, WrittenBytes(e)))
  }

  // ---------- handle_interrupt, handle_write_be_or_amo ----------

  function AfterInterrupt(e: Ev, a: Allow): Ev {
    if a.retry then e.(state := Done, typ := CmdFailed, resp := 0x02)
    else if a.failed then e.(state := Done, typ := CmdFailed, resp := 0x0e)
    else if e.typ != CmdWake && a.pending then e.(state := IntPending, typ := CmdFailed, resp := 0x04)
    else if e.command == 0x5a && a.derror then e.(state := Done, typ := CmdFailed, resp := 0x08)
    else e.(state := Done)
  }

  /** One of the four refusals ends the handler before it builds a message. */
  predicate IntrRefused(e: Ev, a: Allow) {
    a.retry || a.failed || (e.typ != CmdWake && a.pending) || (e.command == 0x5a && a.derror)
  }

  const OCSE_INTERRUPT: Byte := 0x13
  const OCSE_WAKE_HOST_THREAD: Byte := 0x15
  const OCSE_INTERRUPT_D: Byte := 0x16
  const NOTICE_BUFFER: nat := 45

  /** Both copies of an interrupt's data are in bounds: out of its 256-byte buffer and into the 45-byte message. */
  predicate CanNotify(e: Ev) {
    e.command == 0x5a ==> e.addr % 64 + e.size <= |e.data| && 12 + e.size <= NOTICE_BUFFER
  }

  /** The message handle_interrupt builds: kind, flag, the address as it lies in memory, and for an interrupt with
      data its size and the bytes its address points at. */
  function NoticeBytes(e: Ev): (s: seq<Byte>)
    requires CanNotify(e)
    ensures |s| == (if e.command == 0x5a then 12 + e.size else 10) <= NOTICE_BUFFER
  {
    var kind := if e.typ == CmdWake then OCSE_WAKE_HOST_THREAD
                else if e.command == 0x5a then OCSE_INTERRUPT_D else OCSE_INTERRUPT;
    var at := e.addr % 64;
    [kind, e.flag] + LittleEndian(e.addr, 8)
      + (if e.command == 0x5a then LittleEndian(e.size, 2) + e.data[at..at + e.size] else [])
  }

  /** Where handle_interrupt is defined: the command it picks is refused, or its data fits. */
  predicate CanInterrupt(s: State, a: Allow) {
    var i := First(s.list, ToInterrupt);
    i < |s.list| ==> IntrRefused(s.list[i], a) || CanNotify(s.list[i])
  }

  function HandleInterrupt(s: State, a: Allow): State
    requires CanInterrupt(s, a)
  {
    var i := First(s.list, ToInterrupt);
    if i == |s.list| then s
    else
      var e := s.list[i];
      s.(list := s.list[i := AfterInterrupt(e, a)],
         notices := s.notices + if IntrRefused(e, a) then [] else [Notice(e.context, NoticeBytes(e))])
  }

  const AMO_BYTES: nat := 16

  /** The data handle_write_be_or_amo copies is inside the command's buffer. */
  predicate CanOperate(e: Ev) {
    match e.typ
    case CmdWrBe => e.size <= |e.data|
    case CmdAmoWr => e.addr % 64 + AMO_BYTES <= |e.data|
    case CmdAmoRw => e.addr % 64 + AMO_BYTES <= |e.data|
    case _ => true
  }

  /** A write with byte enables brings its line, an AMO with data the 16 bytes its address points at. */
  function OpReqOf(e: Ev): HostReq
    requires CanOperate(e)
  {
    if e.typ == CmdWrBe then WriteBeReq(e.context, e.afutag, e.addr, e.wrBe, e.data[..e.size])
    else
      AmoReq(e.context, e.afutag, e.addr, e.typ, e.size, e.flag, e.endian,
             if e.typ in {CmdAmoWr, CmdAmoRw} then e.data[e.addr % 64..e.addr % 64 + AMO_BYTES] else [])
  }

  function HandleOperate(s: State, a: Allow): State
    requires forall e :: e in s.list && Picks(ToOperate, e) ==> CanOperate(e)
  {
    var i := First(s.list, ToOperate);
    if i == |s.list| || !Free(s, s.list[i].context) then s
    else
      var e := s.list[i];
      var failed := if e.typ in {CmdAmoRd, CmdAmoRw} then READ_FAILED else WRITE_FAILED;
      if Refusal(a).Some? then s.(list := s.list[i := Fail(e, failed, Refusal(a).value)])
      else Ask(s, i, e.state, OpReqOf(e))
  }

  // ---------- the client's answer ----------

  predicate CanStore(e: Ev, bytes: seq<Byte>) {
    e.addr % 64 + e.size <= |e.data| && |bytes| == e.size
  }

  /** The buffer with what the application returned where the address says. */
  function Put(e: Ev, bytes: seq<Byte>): seq<Byte>
    requires CanStore(e, bytes)
  {
    var at := e.addr % 64;
    e.data[..at] + bytes + e.data[at + e.size..]
  }

  /** handle_mem_return and _handle_mem_read: a read falls through to MEM_DONE once its data is stored. */
  function MemReturn(e: Ev, bytes: seq<Byte>): Ev
    requires e.typ in {CmdRead, CmdAmoRd, CmdAmoRw} ==> CanStore(e, bytes)
  {
    if e.typ == CmdRead then e.(data := Put(e, bytes), state := Done, returned := bytes)
    else if e.typ in {CmdAmoRd, CmdAmoRw} then
      e.(data := Put(e, bytes), state := Done, returned := bytes, size := if e.size == 4 then 2 else 3)
    else e.(state := Done)
  }

  /** handle_aerror: the response opcode chosen when the command was added is kept. */
  function Aerror(e: Ev): Ev {
    e.(state := Done, typ := CmdFailed, resp := 0x0e, denied := true)
  }

  function TagIndex(list: seq<Ev>, tag: U16): (i: nat)
    requires HasTag(list, tag)
    ensures i < |list| && list[i].afutag == tag
    ensures forall j :: 0 <= j < i ==> list[j].afutag != tag
  {
    if list[0].afutag == tag then 0 else 1 + TagIndex(list[1..], tag)
  }

  predicate AnswerFits(e: Ev, ok: bool, bytes: seq<Byte>) {
    ok && e.typ in {CmdRead, CmdAmoRd, CmdAmoRw} ==> CanStore(e, bytes)
  }

  predicate CanAnswer(s: State, context: nat, ok: bool, bytes: seq<Byte>) {
    && context < |s.clients| && s.clients[context].Some?
    && (s.clients[context].value.access.Some? ==>
          HasTag(s.list, s.clients[context].value.access.value) &&
          AnswerFits(s.list[TagIndex(s.list, s.clients[context].value.access.value)], ok, bytes))
  }

  /** OCSE_MEM_SUCCESS or OCSE_MEM_FAILURE from a client; without an access it is ignored. */
  function HandleAnswer(s: State, context: nat, ok: bool, bytes: seq<Byte>): State
    requires CanAnswer(s, context, ok, bytes)
  {
    var c := s.clients[context].value;
    if c.access.None? then s
    else
      var i := TagIndex(s.list, c.access.value);
      s.(list := s.list[i := if ok then MemReturn(s.list[i], bytes) else Aerror(s.list[i])],
         clients := s.clients[context := Some(c.(access := None,
             unanswered := if c.unanswered > 0 then c.unanswered - 1 else 0))])
  }
}
