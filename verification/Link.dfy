/** The TLX link as a distributed system: host, AFU driver and the two wires between them, with every
    interleaving of host calls and AFU clock edges. */
module Link {
  import opened Common
  import opened TlxPacket
  import opened TlxEvent

  /** The initial credits each side grants. */
  datatype Grants = Grants(
    cmd: Byte, resp: Byte, cmdData: Byte, respData: Byte,       // ocse to the AFU
    hostCmd: Byte, cfg: Byte, hostResp: Byte)                   // the AFU to ocse

  datatype State = State(
    host: Event, afu: Event,
    toAfu: seq<seq<Byte>>, toHost: seq<seq<Byte>>,
    negedge: bool,           // the next clock edge of tlx_bfm is the one that drives the AFU
    afuGranted: bool,        // afu_tlx_credits_initialized
    afuReady: bool,          // tlx_afu_credits_initialized
    hostReady: bool,         // read_afu_config has read the AFU's grant
    owed: nat,               // responses driven to the AFU whose credit it still holds
    fifo: seq<Line>, rdCnt: nat,
    popped: seq<Line>,       // history: lines driven to the AFU
    payloads: seq<Byte>)     // history: payloads accepted by tlx_afu_send_resp_and_data

  /** What the AFU presents at one driving edge of tlx_bfm. */
  datatype Pins = Pins(
    reset: bool, cfgCredit: bool, respCredit: bool, cmdCredit: bool,
    cmd: Option<AfuCmd>, cmdData: Option<LineBeat>,
    resp: Option<AfuResp>, respData: Option<LineBeat>, cfgResp: Option<CfgResp>,
    respRdCnt: Option<Byte>)

  datatype HostCall =
    | ReadInitial
    | CallSendResp(r: HostResp)
    | CallSendRespAndData(rd: HostResp, bdi: Byte, data: seq<Byte>)
    | CallSendCmd(c: HostCmd, d: Option<DataBeat>)
    | CallSendCfg(cfg: CfgCmd, held: CfgBus)
    | CallReadCmdAndData
    | CallReadCmdData
    | CallRestoreCmdData(b: LineBeat)
    | CallReadResp
    | CallReadRespData
    | CallReadCfgResp(capptag: U16)

  datatype Action =
    | HostSignal            // tlx_signal_afu_model
    | HostGet               // tlx_get_afu_events, which blocks until a packet is there
    | Host(call: HostCall)  // any call ocse makes between the two
    | AfuDrive(pins: Pins)  // tlx_bfm, clock low
    | AfuClock              // tlx_bfm, clock high: tlx_control blocks until a packet is there

  function Initial(g: Grants, negedge: bool): State {
    State(SendInitialCredits(RESET, g.cmd, g.resp, g.cmdData, g.respData), RESET, [], [],
          negedge, false, false, false, 0, [], 0, [], [])
  }

  // ---------- steps ----------

  predicate CallAllowed(s: State, c: HostCall) {
    match c
    case ReadInitial => !s.hostReady
    case CallSendRespAndData(r, _, data) => 1 <= r.dl <= 3 && r.dp % 4 * 64 + DlToSize(r.dl) <= |data|
    case _ => true
  }

  function HostStep(s: State, c: HostCall): State
    requires CallAllowed(s, c)
  {
    match c
    case ReadInitial =>
      var (rc, e) := HostReadInitialCredits(s.host);
      s.(host := e, hostReady := rc == Success)
    case CallSendResp(r) => s.(host := SendResp(s.host, r).1)
    case CallSendRespAndData(r, bdi, data) =>
      var (rc, e) := SendRespAndData(s.host, r, bdi, data);
      s.(host := e, payloads := s.payloads + if rc == Success then RespSlice(r, data) else [])
    case CallSendCmd(c, d) => s.(host := SendCmd(s.host, c, d).1)
    case CallSendCfg(c, held) => s.(host := SendCfg(s.host, c, held).1)
    case CallReadCmdAndData => s.(host := ReadCmdAndData(s.host).1)
    case CallReadCmdData => s.(host := ReadCmdData(s.host).1)
    case CallRestoreCmdData(b) => s.(host := RestoreCmdData(s.host, b))
    case CallReadResp => s.(host := ReadResp(s.host).1)
    case CallReadRespData => s.(host := ReadRespData(s.host).1)
    case CallReadCfgResp(t) => s.(host := ReadCfgResp(s.host, t).2)
  }

  /** The credits the AFU returns on a driving edge; the flags are 0 when it returns none. */
  function ReturnCredits(e: Event, p: Pins): Event {
    e.(afu := e.afu.(
      creditReqValid := e.afu.creditReqValid || p.cfgCredit || p.respCredit || p.cmdCredit,
      credits := e.afu.credits.(cfg := Bit(p.cfgCredit), resp := Bit(p.respCredit), cmd := Bit(p.cmdCredit))))
  }

  /** Initial credits, then the credits the AFU returns. */
  function DriveCredits(g: Grants, s: State, p: Pins): State
    requires p.respCredit ==> s.owed > 0
  {
    var a1 := if !p.reset && !s.afuGranted then AfuSendInitialCredits(s.afu, g.hostCmd, g.cfg, g.hostResp) else s.afu;
    var (rc, a2) := if !p.reset && !s.afuReady then AfuReadInitialCredits(a1) else (NoCredits, a1);
    s.(afu := ReturnCredits(a2, p), afuGranted := s.afuGranted || !p.reset, afuReady := s.afuReady || rc == Success,
       owed := if p.respCredit then s.owed - 1 else s.owed)
  }

  function DriveCmd(s: State, p: Pins): State {
    if p.cmd.Some? then s.(afu := AfuSendCmd(s.afu, p.cmd.value).1) else s
  }

  function DriveCmdData(s: State, p: Pins): State {
    if p.cmdData.Some? then s.(afu := AfuSendCmdData(s.afu, p.cmdData.value).1) else s
  }

  function DriveResp(s: State, p: Pins): State {
    if p.resp.Some? && p.respData.Some? then
      s.(afu := AfuSendRespAndData(s.afu, p.resp.value, p.respData.value).1)
    else if p.resp.Some? then s.(afu := AfuSendResp(s.afu, p.resp.value).1)
    else if p.respData.Some? then s.(afu := AfuSendRespData(s.afu, p.respData.value).1)
    else if p.cfgResp.Some? then s.(afu := AfuSendCfgResp(s.afu, p.cfgResp.value).1)
    else s
  }

  /** The first n 64-byte lines of a data bus. */
  function Lines(bytes: seq<Byte>, n: nat): (l: seq<Line>)
    requires n * 64 <= |bytes|
    ensures |l| == n
  {
    if n == 0 then [] else Lines(bytes, n - 1) + [bytes[(n - 1) * 64 .. n * 64]]
  }

  /** A received response is driven to the AFU and its data is cut into lines at the tail of the FIFO. */
  function CatchResp(s: State): State
    requires DataFits(s.afu.host)
  {
    if s.afu.host.resp.None? then s
    else
      var h := s.afu.host;
      var lines := if h.respData.Some? then Lines(h.respData.value.bytes, DecodeDl(h.resp.value.dl)) else [];
      s.(afu := s.afu.(host := h.(resp := None, respData := None)), owed := s.owed + 1, fifo := s.fifo + lines)
  }

  /** Configuration and command outputs, one line from the FIFO if any is due, then the credit outputs. */
  function DriveOut(s: State): State
    requires s.rdCnt <= |s.fifo|
  {
    var h := s.afu.host;
    var a := s.afu.(host := h.(
      cfg := None, cmd := None, cmdData := if h.cmd.Some? then None else h.cmdData,
      credits := h.credits.(resp := 0, respData := 0, cmd := 0, cmdData := 0, cfgAck := 0)));
    if s.rdCnt == 0 then s.(afu := a)
    else s.(afu := a, rdCnt := s.rdCnt - 1, fifo := s.fifo[1..], popped := s.popped + [s.fifo[0]])
  }

  function Requested(p: Pins): nat {
    if p.respRdCnt.Some? then DecodeRdCnt(p.respRdCnt.value) else 0
  }

  function DriveIn(g: Grants, s: State, p: Pins): State
    requires p.respCredit ==> s.owed > 0
  {
    DriveResp(DriveCmdData(DriveCmd(DriveCredits(g, s, p), p), p), p)
  }

  /** Received data always comes with the response that gives its length. */
  predicate DataFits(h: HostSignals) {
    GroupDataFits(h.resp, h.respData)
  }

  predicate GroupDataFits(resp: Option<HostResp>, respData: Option<DataBeat>) {
    respData.Some? ==>
      resp.Some? && 1 <= resp.value.dl <= 3 && |respData.value.bytes| == DlToSize(resp.value.dl)
  }

  /** What is asked of the AFU: no credit returned while in reset or for a response it does not hold, and
      no more lines requested than have been delivered. */
  predicate AfuBehaves(s: State, p: Pins) {
    && (p.reset ==> !p.cfgCredit && !p.respCredit && !p.cmdCredit)
    && (p.respCredit ==> s.owed > 0)
    && DataFits(s.afu.host)
    && s.rdCnt + Requested(p) <= |CatchResp(s).fifo|
  }

  predicate Enabled(g: Grants, s: State, a: Action) {
    match a
    case HostSignal => true
    case HostGet => |s.toHost| > 0 && WholeAfuPacket(s.toHost[0])
    case Host(c) => !s.host.clock && CallAllowed(s, c)
    case AfuDrive(p) => s.negedge && AfuBehaves(s, p)
    case AfuClock => !s.negedge && |s.toAfu| > 0 && WholeHostPacket(s.toAfu[0])
  }

  /** What the inputs of a driving edge leave alone. */
  predicate InputsOnly(s: State, d: State) {
    && d.afu.host.(creditValid := s.afu.host.creditValid) == s.afu.host
    && d == s.(afu := d.afu, afuGranted := d.afuGranted, afuReady := d.afuReady, owed := d.owed)
  }

  lemma DriveCreditsInputsOnly(g: Grants, s: State, p: Pins)
    requires p.respCredit ==> s.owed > 0
    ensures InputsOnly(s, DriveCredits(g, s, p))
  {
  }

  lemma DriveCmdInputsOnly(s: State, p: Pins)
    ensures InputsOnly(s, DriveCmd(s, p)) && InputsOnly(s, DriveCmdData(s, p))
  {
    hide AfuSendCmd, AfuSendCmdData;
  }

  lemma DriveRespInputsOnly(s: State, p: Pins)
    ensures InputsOnly(s, DriveResp(s, p))
  {
    hide AfuSendResp, AfuSendRespData, AfuSendRespAndData, AfuSendCfgResp;
  }

  lemma DriveInInputsOnly(g: Grants, s: State, p: Pins)
    requires p.respCredit ==> s.owed > 0
    ensures InputsOnly(s, DriveIn(g, s, p))
  {
    hide DriveCredits, DriveCmd, DriveCmdData, DriveResp;
    DriveCreditsInputsOnly(g, s, p);
    var s1 := DriveCredits(g, s, p);
    DriveCmdInputsOnly(s1, p);
    var s2 := DriveCmd(s1, p);
    DriveCmdInputsOnly(s2, p);
    DriveRespInputsOnly(DriveCmdData(s2, p), p);
  }

  /** Only the credits of a driving edge touch the two start-up flags. */
  lemma DriveInGrants(g: Grants, s: State, p: Pins)
    requires p.respCredit ==> s.owed > 0
    ensures var d, t := DriveIn(g, s, p), DriveCredits(g, s, p);
      d.afuGranted == t.afuGranted && d.afuReady == t.afuReady
  {
    hide DriveCredits, AfuSendCmd, AfuSendCmdData, AfuSendResp, AfuSendRespData, AfuSendRespAndData, AfuSendCfgResp;
  }

  function SignalStep(s: State): State {
    var (rc, e, out) := SignalAfuModel(s.host);
    s.(host := e, toAfu := s.toAfu + out)
  }

  function GetStep(s: State): State
    requires |s.toHost| > 0 && WholeAfuPacket(s.toHost[0])
  {
    s.(host := GetAfuEvents(s.host, s.toHost[0]), toHost := s.toHost[1..])
  }

  /** The second half of a driving edge, once n more lines have been requested. */
  function DriveEnd(d: State, n: nat): State
    requires DataFits(d.afu.host) && d.rdCnt + n <= |CatchResp(d).fifo|
  {
    DriveOut(CatchResp(d.(rdCnt := d.rdCnt + n))).(negedge := false)
  }

  function DriveStep(g: Grants, s: State, p: Pins): State
    requires AfuBehaves(s, p)
  {
    RequestedLines(g, s, p);
    DriveEnd(DriveIn(g, s, p), Requested(p))
  }

  lemma RequestedLines(g: Grants, s: State, p: Pins)
    requires AfuBehaves(s, p)
    ensures DataFits(DriveIn(g, s, p).afu.host)
    ensures DriveIn(g, s, p).rdCnt + Requested(p) <= |CatchResp(DriveIn(g, s, p)).fifo|
  {
    DriveInInputsOnly(g, s, p);
    hide DriveIn, Lines;
  }

  function ClockStep(s: State): State
    requires |s.toAfu| > 0 && WholeHostPacket(s.toAfu[0])
  {
    var (e, out) := GetTlxEvents(s.afu, s.toAfu[0]);
    s.(afu := e, toAfu := s.toAfu[1..], toHost := s.toHost + out, negedge := true)
  }

  function Step(g: Grants, s: State, a: Action): State
    requires Enabled(g, s, a)
  {
    match a
    case HostSignal => SignalStep(s)
    case HostGet => GetStep(s)
    case Host(c) => HostStep(s, c)
    case AfuDrive(p) => DriveStep(g, s, p)
    case AfuClock => ClockStep(s)
  }

  /** A run of the link from start-up. */
  ghost predicate Run(g: Grants, negedge: bool, states: seq<State>, acts: seq<Action>) {
    && |states| == |acts| + 1
    && states[0] == Initial(g, negedge)
    && forall i :: 0 <= i < |acts| ==> Enabled(g, states[i], acts[i]) && states[i + 1] == Step(g, states[i], acts[i])
  }

  // ---------- what is in flight ----------

  function HostWire(wire: seq<seq<Byte>>): HostGroups {
    if |wire| == 1 && WholeHostPacket(wire[0]) then ParseHostPacket(wire[0]) else NO_HOST_GROUPS
  }

  function AfuWire(wire: seq<seq<Byte>>): AfuGroups {
    if |wire| == 1 && WholeAfuPacket(wire[0]) then ParseAfuPacket(wire[0]) else NO_AFU_GROUPS
  }

  function Count(b: bool): nat { if b then 1 else 0 }

  /** AFU command credits: free, held by a staged command, by one on the wire, and on their way back. */
  function CmdCredits(s: State): nat {
    s.afu.avail.tlxAfuCmd + Count(s.afu.afu.cmd.Some?) + Count(AfuWire(s.toHost).cmd.Some?)
      + Count(s.host.host.credits.cmd == 1)
      + Count(HostWire(s.toAfu).credits.Some? && HostWire(s.toAfu).credits.value.cmd == 1)
  }

  function CmdDataCredits(s: State): nat {
    s.afu.avail.tlxAfuCmdData + Count(s.afu.afu.cmdData.Some?) + Count(AfuWire(s.toHost).cmdData.Some?)
      + Count(s.host.host.credits.cmdData == 1)
      + Count(HostWire(s.toAfu).credits.Some? && HostWire(s.toAfu).credits.value.cmdData == 1)
  }

  /** Host response credits: free, staged, on the wire, received, held by the AFU, and on their way back. */
  function RespCredits(s: State): nat {
    s.host.avail.afuTlxResp + Count(s.host.host.resp.Some?) + Count(HostWire(s.toAfu).resp.Some?)
      + Count(s.afu.host.resp.Some?) + s.owed + Count(s.afu.afu.credits.resp == 1)
      + Count(AfuWire(s.toHost).credits.Some? && AfuWire(s.toHost).credits.value.resp == 1)
  }

  function DataOf(resp: Option<HostResp>, data: Option<DataBeat>): seq<Byte> {
    if resp.Some? && data.Some? then data.value.bytes else []
  }

  /** Response bytes between tlx_afu_send_resp_and_data and the AFU, oldest first. */
  function DataInFlight(s: State): seq<Byte> {
    Flatten(s.fifo) + (DataOf(s.afu.host.resp, s.afu.host.respData)
      + (DataOf(HostWire(s.toAfu).resp, HostWire(s.toAfu).respData) + DataOf(s.host.host.resp, s.host.host.respData)))
  }

  // ---------- the invariant ----------

  /** Exactly one clock token: held by the host, or on one of the wires. */
  predicate Lockstep(s: State) {
    && !s.afu.clock
    && Count(!s.host.clock) + |s.toAfu| + |s.toHost| == 1
  }

  predicate WiresWhole(s: State) {
    && (|s.toAfu| == 1 ==> WholeHostPacket(s.toAfu[0]) && Flag(s.toAfu[0][0], 0x40))
    && (|s.toHost| == 1 ==> WholeAfuPacket(s.toHost[0]) && Flag(s.toHost[0][0], 0x10))
  }

  predicate HostIdle(h: HostSignals) {
    && HostOut(h) == NO_HOST_GROUPS
    && h.credits.cmd == h.credits.cmdData == h.credits.resp == h.credits.respData == h.credits.cfgAck == 0
  }

  predicate AfuIdle(a: AfuSignals) {
    && AfuOut(a) == NO_AFU_GROUPS && a.credits.resp == 0
  }

  /** Receiving overwrites nothing: the host has nothing staged while it waits, the AFU starts each driving
      edge with nothing staged, and has taken any response by the time the next packet comes. */
  predicate NothingOverwritten(s: State) {
    && (s.host.clock ==> HostIdle(s.host.host))
    && (s.negedge ==> AfuIdle(s.afu.afu))
    && (!s.negedge ==> s.afu.host.resp.None? && s.afu.host.respData.None?)
  }

  predicate HostGrantIn(g: Grants, c: HostCredits) {
    c.cmdInitial == g.cmd && c.respInitial == g.resp && c.cmdDataInitial == g.cmdData && c.respDataInitial == g.respData
  }

  /** A credit the host returns is a 0/1 flag that is going to be sent, and its grant never changes. */
  predicate HostCreditsWillBeSent(g: Grants, h: HostSignals) {
    var c := h.credits;
    && c.cmd < 2 && c.cmdData < 2 && c.resp < 2 && c.respData < 2 && c.cfgAck < 2
    && (c.cmd + c.cmdData + c.resp + c.respData + c.cfgAck > 0 ==> h.creditValid)
    && HostGrantIn(g, c)
  }

  predicate AfuCreditsWillBeSent(g: Grants, granted: bool, a: AfuSignals) {
    && a.credits.resp < 2
    && (a.credits.resp == 1 ==> a.creditReqValid)
    && (a.creditReqValid ==> granted)
    && (granted ==> a.credits.respInitial == g.hostResp)
  }

  /** Wherever a grant is about to be read, it is the one its owner made. */
  predicate GrantsIntact(g: Grants, s: State) {
    && (HostWire(s.toAfu).credits.Some? ==> HostGrantIn(g, HostWire(s.toAfu).credits.value))
    && (s.afu.host.creditValid ==> HostGrantIn(g, s.afu.host.credits))
    && (AfuWire(s.toHost).credits.Some? ==> AfuWire(s.toHost).credits.value.respInitial == g.hostResp)
    && (s.host.afu.creditReqValid ==> s.host.afu.credits.respInitial == g.hostResp)
  }

  predicate CreditsWillBeSent(g: Grants, s: State) {
    && HostCreditsWillBeSent(g, s.host.host)
    && AfuCreditsWillBeSent(g, s.afuGranted, s.afu.afu)
    && GrantsIntact(g, s)
  }

  /** Credits are conserved: the sum is the grant once it has been read, and nothing moves before. */
  predicate Conserved(g: Grants, s: State) {
    && CmdCredits(s) == (if s.afuReady then g.cmd else 0)
    && CmdDataCredits(s) == (if s.afuReady then g.cmdData else 0)
    && RespCredits(s) == (if s.hostReady then g.hostResp else 0)
  }

  predicate DataFitsEverywhere(s: State) {
    && DataFits(s.host.host) && DataFits(s.afu.host)
        && GroupDataFits(HostWire(s.toAfu).resp, HostWire(s.toAfu).respData)
    && s.rdCnt <= |s.fifo|
  }

  /** Every payload byte accepted for sending is either with the AFU or in flight, in order. */
  predicate DataInOrder(s: State) {
    s.payloads == Flatten(s.popped) + DataInFlight(s)
  }

  predicate Inv(g: Grants, s: State) {
    && Lockstep(s) && WiresWhole(s) && NothingOverwritten(s)
    && CreditsWillBeSent(g, s) && Conserved(g, s) && DataFitsEverywhere(s) && DataInOrder(s)
  }
}
