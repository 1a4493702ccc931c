/** The signals, credit counters and clock of one struct AFU_EVENT, and the effect of every function of
    common/tlx_interface.c on them. Both peers of a link hold one. */
module TlxEvent {
  import opened Common
  import opened TlxPacket

  /** Tables 2 to 8: host to AFU. None is a valid flag of 0; an invalid group's fields are never read. */
  datatype HostSignals = HostSignals(
    cfg: Option<CfgCmd>, cmd: Option<HostCmd>, cmdData: Option<DataBeat>,
    resp: Option<HostResp>, respData: Option<DataBeat>, creditValid: bool, credits: HostCredits)

  /** Tables 11 to 13 and the credit requests: AFU to host. */
  datatype AfuSignals = AfuSignals(
    cmd: Option<AfuCmd>, cmdData: Option<LineBeat>, resp: Option<AfuResp>,
    respData: Option<LineBeat>, cfgResp: Option<CfgResp>, creditReqValid: bool, credits: AfuCredits)

  /** The *_credits_available counters. The first three are used by the host, the others by the AFU. */
  datatype Avail = Avail(
    afuTlxCmd: Byte, cfgTlx: Byte, afuTlxResp: Byte,
    tlxAfuCmd: Byte, tlxAfuResp: Byte, tlxAfuCmdData: Byte, tlxAfuRespData: Byte)

  datatype Event = Event(clock: bool, host: HostSignals, afu: AfuSignals, avail: Avail)

  datatype Rc = Success | NoCredits | Double | NotValid | NotCfg | TransmissionError

  const NO_HOST_CREDITS := HostCredits(0, 0, 0, 0, 0, 0, 0, 0, 0)
  const NO_AFU_CREDITS := AfuCredits(0, 0, 0, 0, 0, 0, 0, 0, 0, 0)

  /** tlx_event_reset. */
  const RESET := Event(
    false,
    HostSignals(None, None, None, None, None, false, NO_HOST_CREDITS),
    AfuSignals(None, None, None, None, None, false, NO_AFU_CREDITS),
    Avail(0, 0, 0, 0, 0, 0, 0))

  function HostOut(h: HostSignals): HostGroups {
    HostGroups(h.cfg, h.cmd, h.cmdData, h.resp, h.respData, if h.creditValid then Some(h.credits) else None)
  }

  function AfuOut(a: AfuSignals): AfuGroups {
    AfuGroups(a.cmd, a.cmdData, a.resp, a.respData, a.cfgResp, if a.creditReqValid then Some(a.credits) else None)
  }

  // ---------- the four link functions ----------

  /** Every valid flag is cleared once packed, the credit flags only if they were packed. */
  function HostSent(h: HostSignals): HostSignals {
    HostSignals(None, None, None, None, None, false,
      if h.creditValid then h.credits.(resp := 0, cmd := 0, respData := 0, cmdData := 0, cfgAck := 0) else h.credits)
  }

  function AfuSent(a: AfuSignals): AfuSignals {
    AfuSignals(None, None, None, None, None, false,
      if a.creditReqValid then a.credits.(cmd := 0, cfg := 0, resp := 0) else a.credits)
  }

  /** tlx_signal_afu_model refuses to transmit unless the host holds the clock. */
  function SignalAfuModel(e: Event): (Rc, Event, seq<seq<Byte>>) {
    if e.clock then (TransmissionError, e, [])
    else (Success, e.(clock := true, host := HostSent(e.host)), [HostPacket(HostOut(e.host))])
  }

  /** tlx_signal_tlx_model transmits nothing unless the AFU holds the clock. */
  function SignalTlxModel(e: Event): (Event, seq<seq<Byte>>) {
    if !e.clock then (e, [])
    else (e.(clock := false, afu := AfuSent(e.afu)), [AfuPacket(AfuOut(e.afu))])
  }

  /** Credits the AFU returned, counted by the host; a counted flag is cleared. */
  function AfuReturned(a: Avail, r: AfuCredits): Avail {
    a.(afuTlxCmd := if r.cmd == 1 then Inc8(a.afuTlxCmd) else a.afuTlxCmd,
       cfgTlx := if r.cfg == 1 then Inc8(a.cfgTlx) else a.cfgTlx,
       afuTlxResp := if r.resp == 1 then Inc8(a.afuTlxResp) else a.afuTlxResp)
  }

  function AfuCounted(r: AfuCredits): AfuCredits {
    r.(cmd := if r.cmd == 1 then 0 else r.cmd,
       cfg := if r.cfg == 1 then 0 else r.cfg,
       resp := if r.resp == 1 then 0 else r.resp)
  }

  /** Credits the host returned, counted by the AFU. */
  function HostReturned(a: Avail, c: HostCredits): Avail {
    a.(tlxAfuCmd := if c.cmd == 1 then Inc8(a.tlxAfuCmd) else a.tlxAfuCmd,
       tlxAfuResp := if c.resp == 1 then Inc8(a.tlxAfuResp) else a.tlxAfuResp,
       tlxAfuCmdData := if c.cmdData == 1 then Inc8(a.tlxAfuCmdData) else a.tlxAfuCmdData,
       tlxAfuRespData := if c.respData == 1 then Inc8(a.tlxAfuRespData) else a.tlxAfuRespData)
  }

  /** tlx_get_afu_events on a packet that carries more than the clock: the groups are taken, a credit is
      staged for each AFU command and data beat, and returned credits are counted. */
  function HostTakes(e: Event, g: AfuGroups): (r: Event)
    ensures r.clock == e.clock
  {
    var c := e.host.credits.(
      cmd := Bit(g.cmd.Some?), cmdData := Bit(g.cmdData.Some?),
      resp := if g.resp.Some? then e.host.credits.resp else 0,
      respData := if g.respData.Some? then e.host.credits.respData else 0);
    var host := e.host.(creditValid := e.host.creditValid || g.cmd.Some? || g.cmdData.Some?, credits := c);
    var afu := e.afu.(cmd := g.cmd, cmdData := g.cmdData, resp := g.resp, respData := g.respData, cfgResp := g.cfgResp);
    match g.credits
    case None => e.(host := host, afu := afu.(creditReqValid := false))
    case Some(r) =>
      e.(host := host,
         afu := afu.(creditReqValid := true, credits := AfuCounted(r)),
         avail := AfuReturned(e.avail, r))
  }

  /** tlx_get_afu_events. */
  function GetAfuEvents(e: Event, packet: seq<Byte>): Event
    requires WholeAfuPacket(packet)
  {
    var e1 := if Flag(packet[0], 0x10) then e.(clock := false) else e;
    if packet == [0x10] then e1 else HostTakes(e1, ParseAfuPacket(packet))
  }

  /** tlx_get_tlx_events past the clock: groups are taken and returned credits are counted. */
  function AfuTakes(e: Event, g: HostGroups): (r: Event)
    ensures r.clock == e.clock
  {
    var afu := e.afu.(credits := e.afu.credits.(
      cfg := if g.cfg.Some? then e.afu.credits.cfg else 0,
      cmd := if g.cmd.Some? then e.afu.credits.cmd else 0,
      resp := if g.resp.Some? then e.afu.credits.resp else 0));
    var host := e.host.(cfg := g.cfg, cmd := g.cmd, cmdData := g.cmdData, resp := g.resp, respData := g.respData);
    match g.credits
    case None =>
      e.(afu := afu,
         host := host.(creditValid := false,
                       credits := e.host.credits.(cmd := 0, resp := 0, cmdData := 0, respData := 0)))
    case Some(c) =>
      e.(afu := afu,
         host := host.(creditValid := true, credits := c),
         avail := HostReturned(e.avail, c))
  }

  /** tlx_get_tlx_events: a clock makes the AFU transmit its own packet before it decodes the host's. */
  function GetTlxEvents(e: Event, packet: seq<Byte>): (Event, seq<seq<Byte>>)
    requires WholeHostPacket(packet)
  {
    var (e1, out) := if Flag(packet[0], 0x40) then SignalTlxModel(e.(clock := true)) else (e, []);
    if packet == [0x40] then (e1, out) else (AfuTakes(e1, ParseHostPacket(packet)), out)
  }

  /** A counted flag is cleared, and only the counters of the flags set go up, by one. */
  lemma CountedOnce(e: Event, g: AfuGroups)
    requires g.credits.Some?
    ensures var r, c := HostTakes(e, g), g.credits.value;
      && r.afu.credits.cmd != 1 && r.afu.credits.cfg != 1 && r.afu.credits.resp != 1
      && r.afu.credits.cmdInitial == c.cmdInitial && r.afu.credits.cfgInitial == c.cfgInitial
      && r.afu.credits.respInitial == c.respInitial
      && r.avail == e.avail.(
           afuTlxCmd := (e.avail.afuTlxCmd + if c.cmd == 1 then 1 else 0) % 256,
           cfgTlx := (e.avail.cfgTlx + if c.cfg == 1 then 1 else 0) % 256,
           afuTlxResp := (e.avail.afuTlxResp + if c.resp == 1 then 1 else 0) % 256)
  {
  }

  /** A configuration response other than a read response carries 'dead', and so does a write of other than four
      bytes. */
  lemma FillerIsDead(r: CfgResp, c: CfgCmd, held: CfgBus)
    ensures r.opcode != 0x01 ==> Filled(r).bus == [0x64, 0x65, 0x61, 0x64]
    ensures r.opcode == 0x01 ==> Filled(r) == r
    ensures c.opcode == 0xe1 && c.pl != 2 ==> CfgStaged(c, held).bus == [0x64, 0x65, 0x61, 0x64]
  {
  }

  // ---------- calls made by ocse ----------

  function SendInitialCredits(e: Event, cmd: Byte, resp: Byte, cmdData: Byte, respData: Byte): Event {
    e.(host := e.host.(creditValid := true, credits := e.host.credits.(
      cmdInitial := cmd, respInitial := resp, cmdDataInitial := cmdData, respDataInitial := respData)))
  }

  /** afu_tlx_read_initial_credits. */
  function HostReadInitialCredits(e: Event): (Rc, Event) {
    if !e.afu.creditReqValid then (NoCredits, e)
    else (Success, e.(afu := e.afu.(creditReqValid := false),
      avail := e.avail.(cfgTlx := e.afu.credits.cfgInitial, afuTlxCmd := e.afu.credits.cmdInitial,
                        afuTlxResp := e.afu.credits.respInitial)))
  }

  /** tlx_afu_send_resp, and tlx_afu_send_posted_cmd with the unused fields 0. */
  function SendResp(e: Event, r: HostResp): (Rc, Event) {
    if e.avail.afuTlxResp == 0 then (NoCredits, e)
    else if e.host.resp.Some? then (Double, e)
    else (Success, e.(host := e.host.(resp := Some(r)), avail := e.avail.(afuTlxResp := Dec8(e.avail.afuTlxResp))))
  }

  /** The slice of resp_data that tlx_afu_send_resp_and_data copies. */
  function RespSlice(r: HostResp, data: seq<Byte>): seq<Byte>
    requires 1 <= r.dl <= 3 && r.dp % 4 * 64 + DlToSize(r.dl) <= |data|
  {
    data[r.dp % 4 * 64 .. r.dp % 4 * 64 + DlToSize(r.dl)]
  }

  function SendRespAndData(e: Event, r: HostResp, bdi: Byte, data: seq<Byte>): (Rc, Event)
    requires 1 <= r.dl <= 3 && r.dp % 4 * 64 + DlToSize(r.dl) <= |data|
  {
    if e.avail.afuTlxResp == 0 then (NoCredits, e)
    else if e.host.resp.Some? || e.host.respData.Some? then (Double, e)
    else (Success, e.(
      host := e.host.(resp := Some(r), respData := Some(DataBeat(bdi, RespSlice(r, data)))),
      avail := e.avail.(afuTlxResp := Dec8(e.avail.afuTlxResp))))
  }

  /** tlx_afu_send_cmd and tlx_afu_send_cmd_and_data decrement without testing the counter. */
  function SendCmd(e: Event, c: HostCmd, data: Option<DataBeat>): (Rc, Event) {
    if e.host.cmd.Some? then (Double, e)
    else (Success, e.(
      host := e.host.(cmd := Some(c), cmdData := if data.Some? then data else e.host.cmdData),
      avail := e.avail.(afuTlxCmd := Dec8(e.avail.afuTlxCmd))))
  }

  const AFU_RSP_MEM_RD_RESP: Byte := 0x01
  const CONFIG_READ: Byte := 0xE0
  const CONFIG_WRITE: Byte := 0xE1
  const FILL: Bus4 := [0x64, 0x65, 0x61, 0x64]   // "dead"

  /** tlx_cfg_data_bdi and tlx_cfg_data_bus, which keep their values from one command to the next. */
  datatype CfgBus = CfgBus(bdi: Byte, bus: Bus4)

  /** The command with the data bus it goes out with: a write of four bytes has its own data, any other write filler,
      and a read whatever the bus held. */
  function CfgStaged(c: CfgCmd, held: CfgBus): CfgCmd {
    if c.opcode != CONFIG_WRITE then c.(bdi := held.bdi, bus := held.bus)
    else if c.pl == 2 then c
    else c.(bus := FILL)
  }

  /** tlx_afu_send_cfg_cmd_and_data. */
  function SendCfg(e: Event, c: CfgCmd, held: CfgBus): (Rc, Event) {
    if e.host.cfg.Some? then (Double, e)
    else if c.opcode != CONFIG_READ && c.opcode != CONFIG_WRITE then (NotCfg, e)
    else if e.avail.cfgTlx == 0 then (NoCredits, e)
    else (Success, e.(host := e.host.(cfg := Some(CfgStaged(c, held))),
                      avail := e.avail.(cfgTlx := Dec8(e.avail.cfgTlx))))
  }

  /** afu_tlx_read_cmd_and_data: the command, with the data beat if there is one. */
  function ReadCmdAndData(e: Event): (Option<(AfuCmd, Option<LineBeat>)>, Event) {
    if e.afu.cmd.None? then (None, e)
    else (Some((e.afu.cmd.value, e.afu.cmdData)), e.(afu := e.afu.(cmd := None, cmdData := None)))
  }

  /** afu_tlx_read_cmd_data. */
  function ReadCmdData(e: Event): (Option<LineBeat>, Event) {
    (e.afu.cmdData, e.(afu := e.afu.(cmdData := None)))
  }

  /** `afu_tlx_cdata_valid = 1` on a beat just read: the beat is put back for a later reader. */
  function RestoreCmdData(e: Event, b: LineBeat): Event {
    e.(afu := e.afu.(cmdData := Some(b)))
  }

  /** afu_tlx_read_resp. */
  function ReadResp(e: Event): (Option<AfuResp>, Event) {
    if e.afu.resp.None? then (None, e)
    else (e.afu.resp, e.(afu := e.afu.(resp := None),
      host := e.host.(creditValid := true, credits := e.host.credits.(resp := 1))))
  }

  /** afu_tlx_read_resp_data. */
  function ReadRespData(e: Event): (Option<LineBeat>, Event) {
    if e.afu.respData.None? then (None, e)
    else (e.afu.respData, e.(afu := e.afu.(respData := None),
      host := e.host.(creditValid := true, credits := e.host.credits.(respData := 1))))
  }

  /** afu_tlx_read_cfg_resp_and_data. */
  function ReadCfgResp(e: Event, capptag: U16): (Rc, Option<CfgRead>, Event) {
    if e.afu.cfgResp.None? then (NotValid, None, e)
    else if e.afu.cfgResp.value.capptag != capptag then (NotCfg, None, e)
    else (Success, Some(CfgReadOf(e.afu.cfgResp.value)), e.(afu := e.afu.(cfgResp := None),
      host := e.host.(creditValid := true, credits := e.host.credits.(cfgAck := 1))))
  }

  /** What the caller gets of a configuration response; only a successful read brings data. */
  datatype CfgRead = CfgRead(opcode: Byte, code: Byte, data: Option<CfgBus>)

  function CfgReadOf(r: CfgResp): CfgRead {
    CfgRead(r.opcode, r.code, if r.opcode == AFU_RSP_MEM_RD_RESP then Some(CfgBus(r.bdi, r.bus)) else None)
  }

  /** Why a call is refused: a response without credit before one already staged, a configuration command already
      staged before a wrong opcode before no credit, and a configuration response that is not there before one with
      another tag. */
  lemma RefusedFor(e: Event, r: HostResp, m: HostCmd, c: CfgCmd, held: CfgBus, tag: U16)
    ensures SendResp(e, r).0 == NoCredits <==> e.avail.afuTlxResp == 0
    ensures SendResp(e, r).0 == Double <==> e.avail.afuTlxResp > 0 && e.host.resp.Some?
    ensures SendResp(e, r).0 in {Success, NoCredits, Double}
    ensures SendCmd(e, m, None).0 == (if e.host.cmd.Some? then Double else Success)
    ensures var rc := SendCfg(e, c, held).0;
      && (rc == Double <==> e.host.cfg.Some?)
      && (rc == NotCfg <==> e.host.cfg.None? && c.opcode != 0xe0 && c.opcode != 0xe1)
      && (rc == NoCredits <==> e.host.cfg.None? && (c.opcode == 0xe0 || c.opcode == 0xe1) && e.avail.cfgTlx == 0)
    ensures var rc := ReadCfgResp(e, tag).0;
      && (rc == NotValid <==> e.afu.cfgResp.None?)
      && (rc == NotCfg <==> e.afu.cfgResp.Some? && e.afu.cfgResp.value.capptag != tag)
      && (rc == Success <==> e.afu.cfgResp.Some? && e.afu.cfgResp.value.capptag == tag)
  {
  }

  /** What ocse reads is what the AFU sent, whole, and it is taken: only that group is gone. */
  lemma ReadsTake(e: Event)
    ensures ReadResp(e).0 == e.afu.resp && ReadResp(e).1.afu == e.afu.(resp := None)
    ensures ReadRespData(e).0 == e.afu.respData && ReadRespData(e).1.afu == e.afu.(respData := None)
    ensures ReadCmdData(e).0 == e.afu.cmdData && ReadCmdData(e).1 == e.(afu := e.afu.(cmdData := None))
    ensures var (c, t) := ReadCmdAndData(e);
      if e.afu.cmd.None? then c.None? && t == e
      else c == Some((e.afu.cmd.value, e.afu.cmdData)) && t == e.(afu := e.afu.(cmd := None, cmdData := None))
    ensures forall b :: RestoreCmdData(e, b).afu == e.afu.(cmdData := Some(b))
  {
  }

  // ---------- calls made by the AFU driver ----------

  function AfuSendInitialCredits(e: Event, cmd: Byte, cfg: Byte, resp: Byte): Event {
    e.(afu := e.afu.(creditReqValid := true, credits := e.afu.credits.(
      cmdInitial := cmd, cfgInitial := cfg, respInitial := resp)))
  }

  /** tlx_afu_read_initial_credits. */
  function AfuReadInitialCredits(e: Event): (Rc, Event) {
    if !e.host.creditValid then (NoCredits, e)
    else (Success, e.(host := e.host.(creditValid := false),
      avail := e.avail.(tlxAfuCmd := e.host.credits.cmdInitial, tlxAfuResp := e.host.credits.respInitial,
                        tlxAfuCmdData := e.host.credits.cmdDataInitial,
                        tlxAfuRespData := e.host.credits.respDataInitial)))
  }

  function AfuSendCmd(e: Event, c: AfuCmd): (res: (Rc, Event))
    ensures res.1.host == e.host && res.1.clock == e.clock
  {
    if e.avail.tlxAfuCmd == 0 then (NoCredits, e)
    else if e.afu.cmd.Some? then (Double, e)
    else (Success, e.(afu := e.afu.(cmd := Some(c)), avail := e.avail.(tlxAfuCmd := Dec8(e.avail.tlxAfuCmd))))
  }

  /** afu_tlx_send_cmd_data has no test for a beat already staged. */
  function AfuSendCmdData(e: Event, b: LineBeat): (res: (Rc, Event))
    ensures res.1.host == e.host && res.1.clock == e.clock
  {
    if e.avail.tlxAfuCmdData == 0 then (NoCredits, e)
    else (Success, e.(afu := e.afu.(cmdData := Some(b)),
                      avail := e.avail.(tlxAfuCmdData := Dec8(e.avail.tlxAfuCmdData))))
  }

  /** Only the AFU's response signals and response credits may differ. */
  predicate RespPathOnly(e: Event, r: Event) {
    && r == e.(afu := r.afu, avail := r.avail)
    && r.afu == e.afu.(resp := r.afu.resp, respData := r.afu.respData, cfgResp := r.afu.cfgResp)
    && r.avail == e.avail.(tlxAfuResp := r.avail.tlxAfuResp, tlxAfuRespData := r.avail.tlxAfuRespData)
  }

  function AfuSendResp(e: Event, r: AfuResp): (res: (Rc, Event))
    ensures RespPathOnly(e, res.1)
  {
    if e.avail.tlxAfuResp == 0 then (NoCredits, e)
    else if e.afu.resp.Some? then (Double, e)
    else (Success, e.(afu := e.afu.(resp := Some(r)), avail := e.avail.(tlxAfuResp := Dec8(e.avail.tlxAfuResp))))
  }

  function AfuSendRespData(e: Event, b: LineBeat): (res: (Rc, Event))
    ensures RespPathOnly(e, res.1)
  {
    if e.avail.tlxAfuRespData == 0 then (NoCredits, e)
    else if e.afu.respData.Some? then (Double, e)
    else (Success, e.(afu := e.afu.(respData := Some(b)),
                      avail := e.avail.(tlxAfuRespData := Dec8(e.avail.tlxAfuRespData))))
  }

  function AfuSendRespAndData(e: Event, r: AfuResp, b: LineBeat): (res: (Rc, Event))
    ensures RespPathOnly(e, res.1)
  {
    if e.avail.tlxAfuResp == 0 || e.avail.tlxAfuRespData == 0 then (NoCredits, e)
    else if e.afu.resp.Some? || e.afu.respData.Some? then (Double, e)
    else (Success, e.(afu := e.afu.(resp := Some(r), respData := Some(b)),
                      avail := e.avail.(tlxAfuResp := Dec8(e.avail.tlxAfuResp),
                                        tlxAfuRespData := Dec8(e.avail.tlxAfuRespData))))
  }

  /** A configuration response that brings no data carries filler. */
  function Filled(r: CfgResp): CfgResp {
    if r.opcode != AFU_RSP_MEM_RD_RESP then r.(bus := FILL) else r
  }

  /** afu_cfg_send_resp_and_data. */
  function AfuSendCfgResp(e: Event, r: CfgResp): (res: (Rc, Event))
    ensures RespPathOnly(e, res.1)
  {
    if e.afu.cfgResp.Some? then (Double, e) else (Success, e.(afu := e.afu.(cfgResp := Some(Filled(r)))))
  }
}
