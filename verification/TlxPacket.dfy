/** The two packet layouts of the TLX socket protocol: what the senders of common/tlx_interface.c put
    on the wire, what the receivers read back, and the proof that the two undo each other. */
module TlxPacket {
  import opened Common

  const TLX_BUFFER_SIZE: int := 1070

  type Bus4 = s: seq<Byte> | |s| == 4 witness [0, 0, 0, 0]
  type Obj9 = s: seq<Byte> | |s| == 9 witness [0, 0, 0, 0, 0, 0, 0, 0, 0]
  type Line = s: seq<Byte> | |s| == CACHELINE_BYTES witness seq(CACHELINE_BYTES, _ => 0)
  type Payload = s: seq<Byte> | |s| <= 4 * CACHELINE_BYTES witness []

  // ---------- field groups, host to AFU ----------

  datatype CfgCmd = CfgCmd(opcode: Byte, capptag: U16, pa: U64, t: Byte, pl: Byte, bdi: Byte, bus: Bus4)
  datatype HostCmd = HostCmd(opcode: Byte, capptag: U16, dl: Byte, pl: Byte, be: U64, end: Byte, pa: U64)
  datatype DataBeat = DataBeat(bdi: Byte, bytes: Payload)
  datatype HostResp = HostResp(opcode: Byte, afutag: U16, code: Byte, pgSize: Byte, dl: Byte, dp: Byte)
  datatype HostCredits = HostCredits(
    cmdInitial: Byte, cmdDataInitial: Byte, respInitial: Byte, respDataInitial: Byte,
    resp: Byte, cmd: Byte, respData: Byte, cmdData: Byte, cfgAck: Byte)

  /** The groups of one host packet; None is a valid flag of 0. */
  datatype HostGroups = HostGroups(
    cfg: Option<CfgCmd>, cmd: Option<HostCmd>, cmdData: Option<DataBeat>,
    resp: Option<HostResp>, respData: Option<DataBeat>, credits: Option<HostCredits>)

  // ---------- field groups, AFU to host ----------

  datatype AfuCmd = AfuCmd(
    opcode: Byte, actag: U16, streamId: Byte, eaOrObj: Obj9, afutag: U16, dl: Byte, pl: Byte, be: U64,
    flag: Byte, endian: Byte, bdf: U16, pasid: U32, pgSize: Byte)
  datatype LineBeat = LineBeat(bdi: Byte, bytes: Line)
  datatype AfuResp = AfuResp(opcode: Byte, dl: Byte, capptag: U16, dp: Byte, code: Byte)
  datatype CfgResp = CfgResp(opcode: Byte, capptag: U16, code: Byte, bdi: Byte, bus: Bus4)
  datatype AfuCredits = AfuCredits(
    respInitial: Byte, cmdInitial: Byte, cfgInitial: Byte, resp: Byte, cmd: Byte, cfg: Byte,
    respRdReq: Byte, respRdCnt: Byte, cmdRdReq: Byte, cmdRdCnt: Byte)

  datatype AfuGroups = AfuGroups(
    cmd: Option<AfuCmd>, cmdData: Option<LineBeat>, resp: Option<AfuResp>,
    respData: Option<LineBeat>, cfgResp: Option<CfgResp>, credits: Option<AfuCredits>)

  const NO_HOST_GROUPS := HostGroups(None, None, None, None, None, None)
  const NO_AFU_GROUPS := AfuGroups(None, None, None, None, None, None)

  predicate Flag(header: Byte, bit: nat)
    requires bit > 0
  {
    header / bit % 2 == 1
  }

  // ---------- one group: bytes written, fields read, and the mask in between ----------

  function CfgBytes(c: CfgCmd): (s: seq<Byte>)
    ensures |s| == 18
  {
    [c.opcode] + (BigEndian(c.capptag, 2) + (BigEndian(c.pa, 8) + ([c.t % 2, c.pl % 8, c.bdi % 2] + c.bus)))
  }

  function CfgOf(s: seq<Byte>): CfgCmd
    requires |s| == 18
  {
    CfgCmd(s[0], From16(s[1..3]), From64(s[3..11]), s[11], s[12], s[13], s[14..18])
  }

  function HostCmdBytes(c: HostCmd): (s: seq<Byte>)
    ensures |s| == 22
  {
    [c.opcode] + (BigEndian(c.capptag, 2) + ([c.dl % 4, c.pl % 8] +
      (BigEndian(c.be, 8) + ([c.end % 2] + BigEndian(c.pa, 8)))))
  }

  function HostCmdOf(s: seq<Byte>): HostCmd
    requires |s| == 22
  {
    HostCmd(s[0], From16(s[1..3]), s[3], s[4], From64(s[5..13]), s[13], From64(s[14..22]))
  }

  function HostRespBytes(r: HostResp): (s: seq<Byte>)
    ensures |s| == 7
  {
    [r.opcode] + (BigEndian(r.afutag, 2) + [r.code, r.pgSize, r.dl, r.dp])
  }

  function HostRespOf(s: seq<Byte>): HostResp
    requires |s| == 7
  {
    HostResp(s[0], From16(s[1..3]), s[3], s[4], s[5], s[6])
  }

  function HostCreditBytes(c: HostCredits): (s: seq<Byte>)
    ensures |s| == 9
  {
    [c.cmdInitial, c.cmdDataInitial, c.respInitial, c.respDataInitial,
     c.resp, c.cmd, c.respData, c.cmdData, c.cfgAck]
  }

  function HostCreditsOf(s: seq<Byte>): HostCredits
    requires |s| == 9
  {
    HostCredits(s[0], s[1], s[2], s[3], s[4], s[5], s[6], s[7], s[8])
  }

  function AfuCmdBytes(c: AfuCmd): (s: seq<Byte>)
    ensures |s| == 34
  {
    [c.opcode] + (BigEndian(c.actag, 2) + ([c.streamId % 16] + (c.eaOrObj + (BigEndian(c.afutag, 2) +
      ([c.dl % 4, c.pl % 8] + (BigEndian(c.be, 8) + ([c.flag % 16, c.endian % 2] +
      (BigEndian(c.bdf, 2) + (BigEndian(c.pasid, 4) + [c.pgSize])))))))))
  }

  function AfuCmdOf(s: seq<Byte>): AfuCmd
    requires |s| == 34
  {
    AfuCmd(s[0], From16(s[1..3]), s[3], s[4..13], From16(s[13..15]), s[15], s[16], From64(s[17..25]),
           s[25], s[26], From16(s[27..29]), From32(s[29..33]), s[33])
  }

  function AfuRespBytes(r: AfuResp): (s: seq<Byte>)
    ensures |s| == 6
  {
    [r.opcode, r.dl % 4] + (BigEndian(r.capptag, 2) + [r.dp % 4, r.code % 16])
  }

  function AfuRespOf(s: seq<Byte>): AfuResp
    requires |s| == 6
  {
    AfuResp(s[0], s[1], From16(s[2..4]), s[4], s[5])
  }

  function CfgRespBytes(r: CfgResp): (s: seq<Byte>)
    ensures |s| == 9
  {
    [r.opcode] + (BigEndian(r.capptag, 2) + ([r.code % 16, r.bdi % 2] + r.bus))
  }

  function CfgRespOf(s: seq<Byte>): CfgResp
    requires |s| == 9
  {
    CfgResp(s[0], From16(s[1..3]), s[3], s[4], s[5..9])
  }

  function AfuCreditBytes(c: AfuCredits): (s: seq<Byte>)
    ensures |s| == 10
  {
    [c.respInitial, c.cmdInitial, c.cfgInitial, c.resp, c.cmd, c.cfg,
     c.respRdReq, c.respRdCnt, c.cmdRdReq, c.cmdRdCnt]
  }

  function AfuCreditsOf(s: seq<Byte>): AfuCredits
    requires |s| == 10
  {
    AfuCredits(s[0], s[1], s[2], s[3], s[4], s[5], s[6], s[7], s[8], s[9])
  }

  function BeatBytes(bdi: Byte, bytes: seq<Byte>): seq<Byte> { [bdi % 2] + bytes }

  // ---------- reading a big-endian field ----------

  lemma {:induction false} FromBigEndianBound(s: seq<Byte>)
    ensures 0 <= FromBigEndian(s) < Pow256(|s|)
  {
    if s != [] {
      FromBigEndianBound(s[..|s| - 1]);
    }
  }

  lemma PowersOf256()
    ensures Pow256(0) == 1 && Pow256(1) == 0x100 && Pow256(2) == 0x1_0000 && Pow256(3) == 0x100_0000
    ensures Pow256(4) == 0x1_0000_0000 && Pow256(8) == 0x1_0000_0000_0000_0000
  {
  }

  function From16(s: seq<Byte>): U16
    requires |s| == 2
  {
    FromBigEndianBound(s); PowersOf256();
    FromBigEndian(s)
  }

  function From32(s: seq<Byte>): U32
    requires |s| == 4
  {
    FromBigEndianBound(s); PowersOf256();
    FromBigEndian(s)
  }

  function From64(s: seq<Byte>): U64
    requires |s| == 8
  {
    FromBigEndianBound(s); PowersOf256();
    FromBigEndian(s)
  }

  lemma WordRoundTrip(v: nat)
    ensures v < 0x1_0000 ==> From16(BigEndian(v, 2)) == v
    ensures v < 0x1_0000_0000 ==> From32(BigEndian(v, 4)) == v
    ensures v < 0x1_0000_0000_0000_0000 ==> From64(BigEndian(v, 8)) == v
  {
    PowersOf256();
    if v < Pow256(2) { BigEndianRoundTrip(v, 2); }
    if v < Pow256(4) { BigEndianRoundTrip(v, 4); }
    if v < Pow256(8) { BigEndianRoundTrip(v, 8); }
  }

  // ---------- each group: what arrives is what was sent, cut to the declared widths ----------

  function TrimCfg(c: CfgCmd): CfgCmd { c.(t := c.t % 2, pl := c.pl % 8, bdi := c.bdi % 2) }
  function TrimHostCmd(c: HostCmd): HostCmd { c.(dl := c.dl % 4, pl := c.pl % 8, end := c.end % 2) }
  function TrimBeat(b: DataBeat): DataBeat { b.(bdi := b.bdi % 2) }
  function TrimLine(b: LineBeat): LineBeat { b.(bdi := b.bdi % 2) }
  function TrimAfuCmd(c: AfuCmd): AfuCmd {
    c.(streamId := c.streamId % 16, dl := c.dl % 4, pl := c.pl % 8, flag := c.flag % 16, endian := c.endian % 2)
  }
  function TrimAfuResp(r: AfuResp): AfuResp { r.(dl := r.dl % 4, dp := r.dp % 4, code := r.code % 16) }
  function TrimCfgResp(r: CfgResp): CfgResp { r.(code := r.code % 16, bdi := r.bdi % 2) }

  lemma CfgRoundTrip(c: CfgCmd)
    ensures CfgOf(CfgBytes(c)) == TrimCfg(c)
  {
    hide BigEndian, FromBigEndian, From16, From32, From64;
    var s := CfgBytes(c);
    WordRoundTrip(c.capptag);
    WordRoundTrip(c.pa);
    assert s[1..3] == BigEndian(c.capptag, 2);
    assert s[3..11] == BigEndian(c.pa, 8);
    assert s[14..18] == c.bus;
  }

  lemma HostCmdRoundTrip(c: HostCmd)
    ensures HostCmdOf(HostCmdBytes(c)) == TrimHostCmd(c)
  {
    hide BigEndian, FromBigEndian, From16, From32, From64;
    var s := HostCmdBytes(c);
    WordRoundTrip(c.capptag);
    WordRoundTrip(c.be);
    WordRoundTrip(c.pa);
    assert s[1..3] == BigEndian(c.capptag, 2);
    assert s[5..13] == BigEndian(c.be, 8);
    assert s[14..22] == BigEndian(c.pa, 8);
  }

  lemma HostRespRoundTrip(r: HostResp)
    ensures HostRespOf(HostRespBytes(r)) == r
  {
    hide BigEndian, FromBigEndian, From16, From32, From64;
    WordRoundTrip(r.afutag);
    assert HostRespBytes(r)[1..3] == BigEndian(r.afutag, 2);
  }

  lemma AfuCmdRoundTrip(c: AfuCmd)
    ensures AfuCmdOf(AfuCmdBytes(c)) == TrimAfuCmd(c)
  {
    hide BigEndian, FromBigEndian, From16, From32, From64;
    var s := AfuCmdBytes(c);
    WordRoundTrip(c.actag);
    WordRoundTrip(c.afutag);
    WordRoundTrip(c.be);
    WordRoundTrip(c.bdf);
    WordRoundTrip(c.pasid);
    assert s[1..3] == BigEndian(c.actag, 2);
    assert s[4..13] == c.eaOrObj;
    assert s[13..15] == BigEndian(c.afutag, 2);
    assert s[17..25] == BigEndian(c.be, 8);
    assert s[27..29] == BigEndian(c.bdf, 2);
    assert s[29..33] == BigEndian(c.pasid, 4);
  }

  lemma AfuRespRoundTrip(r: AfuResp)
    ensures AfuRespOf(AfuRespBytes(r)) == TrimAfuResp(r)
  {
    hide BigEndian, FromBigEndian, From16, From32, From64;
    WordRoundTrip(r.capptag);
    assert AfuRespBytes(r)[2..4] == BigEndian(r.capptag, 2);
  }

  lemma CfgRespRoundTrip(r: CfgResp)
    ensures CfgRespOf(CfgRespBytes(r)) == TrimCfgResp(r)
  {
    hide BigEndian, FromBigEndian, From16, From32, From64;
    var s := CfgRespBytes(r);
    WordRoundTrip(r.capptag);
    assert s[1..3] == BigEndian(r.capptag, 2);
    assert s[5..9] == r.bus;
  }

  // ---------- host to AFU packets ----------

  function Bit(b: bool): Byte { if b then 1 else 0 }

  function HostHeader(p: HostPresence): Byte {
    0x40 + 0x20 * Bit(p.cfg) + 0x10 * Bit(p.cmd) + 0x08 * Bit(p.cmdData)
         + 0x04 * Bit(p.resp) + 0x02 * Bit(p.respData) + Bit(p.credits)
  }

  function ByteCount(d: Option<DataBeat>): nat { if d.Some? then |d.value.bytes| else 0 }

  /** Bytes 1 to 4: the two 12-bit data byte counts. */
  function CountBytes(cmdCount: nat, respCount: nat): seq<Byte> {
    [cmdCount / 0x100 % 0x10, cmdCount % 0x100, respCount / 0x100 % 0x10, respCount % 0x100]
  }

  function CfgPart(o: Option<CfgCmd>): (s: seq<Byte>)
    ensures |s| == if o.Some? then 18 else 0
  {
    if o.Some? then CfgBytes(o.value) else []
  }

  function HostCmdPart(o: Option<HostCmd>): (s: seq<Byte>)
    ensures |s| == if o.Some? then 22 else 0
  {
    if o.Some? then HostCmdBytes(o.value) else []
  }

  function BeatPart(o: Option<DataBeat>): (s: seq<Byte>)
    ensures |s| == if o.Some? then ByteCount(o) + 1 else 0
  {
    if o.Some? then BeatBytes(o.value.bdi, o.value.bytes) else []
  }

  function HostRespPart(o: Option<HostResp>): (s: seq<Byte>)
    ensures |s| == if o.Some? then 7 else 0
  {
    if o.Some? then HostRespBytes(o.value) else []
  }

  function HostCreditPart(o: Option<HostCredits>): (s: seq<Byte>)
    ensures |s| == if o.Some? then 9 else 0
  {
    if o.Some? then HostCreditBytes(o.value) else []
  }

  function HostTail(g: HostGroups): (s: seq<Byte>)
    ensures |s| == (if g.resp.Some? then 7 else 0) + (if g.respData.Some? then ByteCount(g.respData) + 1 else 0)
      + (if g.credits.Some? then 9 else 0)
  {
    HostRespPart(g.resp) + (BeatPart(g.respData) + HostCreditPart(g.credits))
  }

  function HostBody(g: HostGroups): seq<Byte> {
    CfgPart(g.cfg) + HostCommand(g)
  }

  function HostCommand(g: HostGroups): (s: seq<Byte>)
    ensures |s| == (if g.cmd.Some? then 22 else 0) + (if g.cmdData.Some? then ByteCount(g.cmdData) + 1 else 0)
      + |HostTail(g)|
  {
    HostCmdPart(g.cmd) + (BeatPart(g.cmdData) + HostTail(g))
  }

  /** The bytes tlx_signal_afu_model sends: a lone clock byte when no group is valid. */
  function HostPacket(g: HostGroups): seq<Byte> {
    if g == NO_HOST_GROUPS then [0x40]
    else [HostHeader(HostPresent(g))] + CountBytes(ByteCount(g.cmdData), ByteCount(g.respData)) + HostBody(g)
  }

  /** Which groups a header byte announces. */
  datatype HostPresence = HostPresence(
    cfg: bool, cmd: bool, cmdData: bool, resp: bool, respData: bool, credits: bool)

  function HostPresenceOf(header: Byte): HostPresence {
    HostPresence(Flag(header, 0x20), Flag(header, 0x10), Flag(header, 0x08),
                 Flag(header, 0x04), Flag(header, 0x02), Flag(header, 0x01))
  }

  function HostPresent(g: HostGroups): HostPresence {
    HostPresence(g.cfg.Some?, g.cmd.Some?, g.cmdData.Some?, g.resp.Some?, g.respData.Some?, g.credits.Some?)
  }

  /** rbc as tlx_get_tlx_events computes it from the header and the two counts. */
  function HostReceiveLength(p: HostPresence, cmdCount: nat, respCount: nat): (n: nat)
    ensures n >= 5
  {
    5 + (if p.cfg then 18 else 0) + (if p.cmd then 22 else 0) + (if p.cmdData then cmdCount + 1 else 0)
      + (if p.resp then 7 else 0) + (if p.respData then respCount + 1 else 0) + (if p.credits then 9 else 0)
  }

  function CountAt(s: seq<Byte>, i: nat): nat
    requires i + 1 < |s|
  {
    (s[i] as int) * 0x100 + s[i + 1] as int
  }

  /** The receive buffer holds a whole packet: a lone clock byte, or a longer one with some other flag set and
      exactly the rbc bytes computed from its header, with data counts that fit the data buses. */
  predicate WholeHostPacket(s: seq<Byte>) {
    s == [0x40] ||
    (|s| >= 5 && s[0] != 0x40 && CountAt(s, 1) <= 256 && CountAt(s, 3) <= 256 &&
     |s| == HostReceiveLength(HostPresenceOf(s[0]), CountAt(s, 1), CountAt(s, 3)))
  }

  function TakeCfg(present: bool, r: seq<Byte>): (Option<CfgCmd>, seq<Byte>)
    requires present ==> |r| >= 18
  {
    if present then (Some(CfgOf(r[..18])), r[18..]) else (None, r)
  }

  lemma TakeCfgBack(o: Option<CfgCmd>, rest: seq<Byte>)
    ensures TakeCfg(o.Some?, CfgPart(o) + rest) == (if o.Some? then Some(TrimCfg(o.value)) else None, rest)
  {
    if o.Some? {
      CfgRoundTrip(o.value);
      assert (CfgBytes(o.value) + rest)[..18] == CfgBytes(o.value) && (CfgBytes(o.value) + rest)[18..] == rest;
    } else {
      assert [] + rest == rest;
    }
  }

  function TakeHostCmd(present: bool, r: seq<Byte>): (Option<HostCmd>, seq<Byte>)
    requires present ==> |r| >= 22
  {
    if present then (Some(HostCmdOf(r[..22])), r[22..]) else (None, r)
  }

  lemma TakeHostCmdBack(o: Option<HostCmd>, rest: seq<Byte>)
    ensures TakeHostCmd(o.Some?, HostCmdPart(o) + rest) == (if o.Some? then Some(TrimHostCmd(o.value)) else None, rest)
  {
    if o.Some? {
      HostCmdRoundTrip(o.value);
      assert (HostCmdBytes(o.value) + rest)[..22] == HostCmdBytes(o.value)
          && (HostCmdBytes(o.value) + rest)[22..] == rest;
    } else {
      assert [] + rest == rest;
    }
  }

  function TakeHostResp(present: bool, r: seq<Byte>): (Option<HostResp>, seq<Byte>)
    requires present ==> |r| >= 7
  {
    if present then (Some(HostRespOf(r[..7])), r[7..]) else (None, r)
  }

  lemma TakeHostRespBack(o: Option<HostResp>, rest: seq<Byte>)
    ensures TakeHostResp(o.Some?, HostRespPart(o) + rest) == (o, rest)
  {
    if o.Some? {
      HostRespRoundTrip(o.value);
      assert (HostRespBytes(o.value) + rest)[..7] == HostRespBytes(o.value)
          && (HostRespBytes(o.value) + rest)[7..] == rest;
    } else {
      assert [] + rest == rest;
    }
  }

  function TakeBeat(present: bool, count: nat, r: seq<Byte>): (Option<DataBeat>, seq<Byte>)
    requires count <= 256 && (present ==> |r| >= count + 1)
  {
    if present then (Some(DataBeat(r[0], r[1..count + 1])), r[count + 1..]) else (None, r)
  }

  lemma TakeBeatBack(o: Option<DataBeat>, rest: seq<Byte>)
    ensures TakeBeat(o.Some?, ByteCount(o), BeatPart(o) + rest)
         == (if o.Some? then Some(TrimBeat(o.value)) else None, rest)
  {
    if o.Some? {
      var r, n := BeatPart(o) + rest, ByteCount(o);
      assert r[0] == o.value.bdi % 2 && r[1..n + 1] == o.value.bytes && r[n + 1..] == rest;
    } else {
      assert [] + rest == rest;
    }
  }

  /** The groups after the command data, then the whole body. */
  function ParseHostTail(p: HostPresence, respCount: nat, r3: seq<Byte>)
    : (Option<HostResp>, Option<DataBeat>, Option<HostCredits>)
    requires respCount <= 256
    requires |r3|
      == (if p.resp then 7 else 0) + (if p.respData then respCount + 1 else 0) + (if p.credits then 9 else 0)
  {
    var (resp, r4) := TakeHostResp(p.resp, r3);
    var (respData, r5) := TakeBeat(p.respData, respCount, r4);
    (resp, respData, if p.credits then Some(HostCreditsOf(r5)) else None)
  }

  function ParseHostBody(p: HostPresence, cmdCount: nat, respCount: nat, r0: seq<Byte>): HostGroups
    requires cmdCount <= 256 && respCount <= 256
    requires 5 + |r0| == HostReceiveLength(p, cmdCount, respCount)
  {
    var (cfg, r1) := TakeCfg(p.cfg, r0);
    var (cmd, cmdData, r3) := ParseHostCommand(p, cmdCount, r1);
    var (resp, respData, credits) := ParseHostTail(p, respCount, r3);
    HostGroups(cfg, cmd, cmdData, resp, respData, credits)
  }

  function ParseHostCommand(p: HostPresence, cmdCount: nat, r1: seq<Byte>)
    : (t: (Option<HostCmd>, Option<DataBeat>, seq<Byte>))
    requires cmdCount <= 256
    requires |r1| >= (if p.cmd then 22 else 0) + (if p.cmdData then cmdCount + 1 else 0)
    ensures |t.2| == |r1| - (if p.cmd then 22 else 0) - (if p.cmdData then cmdCount + 1 else 0)
  {
    var (cmd, r2) := TakeHostCmd(p.cmd, r1);
    var (cmdData, r3) := TakeBeat(p.cmdData, cmdCount, r2);
    (cmd, cmdData, r3)
  }

  /** The groups tlx_get_tlx_events takes out of a whole packet. */
  function ParseHostPacket(s: seq<Byte>): HostGroups
    requires WholeHostPacket(s)
  {
    if s == [0x40] then NO_HOST_GROUPS
    else ParseHostBody(HostPresenceOf(s[0]), CountAt(s, 1), CountAt(s, 3), s[5..])
  }

  function TrimHost(g: HostGroups): HostGroups {
    HostGroups(
      if g.cfg.Some? then Some(TrimCfg(g.cfg.value)) else None,
      if g.cmd.Some? then Some(TrimHostCmd(g.cmd.value)) else None,
      if g.cmdData.Some? then Some(TrimBeat(g.cmdData.value)) else None,
      g.resp,
      if g.respData.Some? then Some(TrimBeat(g.respData.value)) else None,
      g.credits)
  }

  /** Every field of every group is within the width declared in tlx_interface_t.h. */
  predicate HostInWidth(g: HostGroups) {
    && (g.cfg.Some? ==> g.cfg.value.t < 2 && g.cfg.value.pl < 8 && g.cfg.value.bdi < 2)
    && (g.cmd.Some? ==> g.cmd.value.dl < 4 && g.cmd.value.pl < 8 && g.cmd.value.end < 2)
    && (g.cmdData.Some? ==> g.cmdData.value.bdi < 2)
    && (g.respData.Some? ==> g.respData.value.bdi < 2)
  }

  lemma HostHeaderPresence(p: HostPresence)
    ensures HostPresenceOf(HostHeader(p)) == p && Flag(HostHeader(p), 0x40)
    ensures HostHeader(p) == 0x40 <==> p == HostPresent(NO_HOST_GROUPS)
  {
    var h := HostHeader(p);
    var h32 := 2 + Bit(p.cfg);
    var h16 := 2 * h32 + Bit(p.cmd);
    var h8 := 2 * h16 + Bit(p.cmdData);
    var h4 := 2 * h8 + Bit(p.resp);
    var h2 := 2 * h4 + Bit(p.respData);
    assert h == 2 * h2 + Bit(p.credits);
    assert h / 0x02 == h2 && h / 0x04 == h4 && h / 0x08 == h8;
    assert h / 0x10 == h16 && h / 0x20 == h32 && h / 0x40 == 1;
  }

  lemma HostTailRoundTrip(g: HostGroups)
    ensures ParseHostTail(HostPresent(g), ByteCount(g.respData), HostTail(g))
      == (g.resp, if g.respData.Some? then Some(TrimBeat(g.respData.value)) else None, g.credits)
  {
    var r5 := HostCreditPart(g.credits);
    TakeHostRespBack(g.resp, BeatPart(g.respData) + r5);
    TakeBeatBack(g.respData, r5);
  }

  lemma HostCommandRoundTrip(g: HostGroups)
    ensures ParseHostCommand(HostPresent(g), ByteCount(g.cmdData), HostCommand(g))
      == (if g.cmd.Some? then Some(TrimHostCmd(g.cmd.value)) else None,
          if g.cmdData.Some? then Some(TrimBeat(g.cmdData.value)) else None, HostTail(g))
  {
    TakeHostCmdBack(g.cmd, BeatPart(g.cmdData) + HostTail(g));
    TakeBeatBack(g.cmdData, HostTail(g));
  }

  lemma HostBodyRoundTrip(g: HostGroups)
    ensures 5 + |HostBody(g)| == HostReceiveLength(HostPresent(g), ByteCount(g.cmdData), ByteCount(g.respData))
    ensures ParseHostBody(HostPresent(g), ByteCount(g.cmdData), ByteCount(g.respData), HostBody(g)) == TrimHost(g)
  {
    hide TakeCfg, TakeHostCmd, TakeBeat, TakeHostResp, ParseHostCommand, ParseHostTail;
    hide CfgPart, HostCommand, HostTail, TrimCfg, TrimHostCmd, TrimBeat, Pow256;
    TakeCfgBack(g.cfg, HostCommand(g));
    HostCommandRoundTrip(g);
    HostTailRoundTrip(g);
  }

  /** Any packet the host builds is whole, fits the buffer, is a single byte exactly when nothing is valid,
      and is read back as the groups sent, cut to their widths: unchanged exactly when all are in width. */
  lemma HostPacketRoundTrip(g: HostGroups)
    ensures WholeHostPacket(HostPacket(g))
    ensures |HostPacket(g)| <= TLX_BUFFER_SIZE
    ensures |HostPacket(g)| == 1 <==> g == NO_HOST_GROUPS
    ensures Flag(HostPacket(g)[0], 0x40)
    ensures ParseHostPacket(HostPacket(g)) == TrimHost(g)
    ensures ParseHostPacket(HostPacket(g)) == g <==> HostInWidth(g)
  {
    if g != NO_HOST_GROUPS {
      HostPacketParts(g);
      HostBodyRoundTrip(g);
      assert HostPacket(g) != [0x40] by { assert |HostPacket(g)| >= 5; }
    }
    HostTrimIsWidth(g);
  }

  lemma HostPacketParts(g: HostGroups)
    requires g != NO_HOST_GROUPS
    ensures var s := HostPacket(g);
      && |s| == 5 + |HostBody(g)| && s[5..] == HostBody(g) && HostPresenceOf(s[0]) == HostPresent(g) && Flag(s[0], 0x40)
      && CountAt(s, 1) == ByteCount(g.cmdData) && CountAt(s, 3) == ByteCount(g.respData) && s[0] != 0x40
  {
    hide HostBody, HostHeader, HostPresenceOf;
    HostHeaderPresence(HostPresent(g));
    var s := HostPacket(g);
    assert s[0] == HostHeader(HostPresent(g));
    var c := CountBytes(ByteCount(g.cmdData), ByteCount(g.respData));
    assert s[1] == c[0] && s[2] == c[1] && s[3] == c[2] && s[4] == c[3];
  }

  lemma HostTrimIsWidth(g: HostGroups)
    ensures TrimHost(g) == g <==> HostInWidth(g)
  {
  }

  // ---------- AFU to host packets ----------

  function AfuHeader(p: AfuPresence): Byte {
    0x10 + 0x40 * Bit(p.cfgResp) + 0x20 * Bit(p.respData) + 0x08 * Bit(p.resp)
         + 0x04 * Bit(p.cmdData) + 0x02 * Bit(p.cmd) + Bit(p.credits)
  }

  function AfuCmdPart(o: Option<AfuCmd>): (s: seq<Byte>)
    ensures |s| == if o.Some? then 34 else 0
  {
    if o.Some? then AfuCmdBytes(o.value) else []
  }

  function LinePart(o: Option<LineBeat>): (s: seq<Byte>)
    ensures |s| == if o.Some? then 65 else 0
  {
    if o.Some? then BeatBytes(o.value.bdi, o.value.bytes) else []
  }

  function AfuRespPart(o: Option<AfuResp>): (s: seq<Byte>)
    ensures |s| == if o.Some? then 6 else 0
  {
    if o.Some? then AfuRespBytes(o.value) else []
  }

  function CfgRespPart(o: Option<CfgResp>): (s: seq<Byte>)
    ensures |s| == if o.Some? then 9 else 0
  {
    if o.Some? then CfgRespBytes(o.value) else []
  }

  function AfuCreditPart(o: Option<AfuCredits>): (s: seq<Byte>)
    ensures |s| == if o.Some? then 10 else 0
  {
    if o.Some? then AfuCreditBytes(o.value) else []
  }

  function AfuTail(g: AfuGroups): (s: seq<Byte>)
    ensures |s| == (if g.respData.Some? then 65 else 0) + (if g.cfgResp.Some? then 9 else 0)
      + (if g.credits.Some? then 10 else 0)
  {
    LinePart(g.respData) + (CfgRespPart(g.cfgResp) + AfuCreditPart(g.credits))
  }

  function AfuBody(g: AfuGroups): seq<Byte> {
    AfuCmdPart(g.cmd) + (LinePart(g.cmdData) + (AfuRespPart(g.resp) + AfuTail(g)))
  }

  function LineCount(o: Option<LineBeat>): nat { if o.Some? then 64 else 0 }

  /** The bytes tlx_signal_tlx_model sends. */
  function AfuPacket(g: AfuGroups): seq<Byte> {
    if g == NO_AFU_GROUPS then [0x10]
    else [AfuHeader(AfuPresent(g))] + CountBytes(LineCount(g.cmdData), LineCount(g.respData)) + AfuBody(g)
  }

  datatype AfuPresence = AfuPresence(
    cmd: bool, cmdData: bool, resp: bool, respData: bool, cfgResp: bool, credits: bool)

  function AfuPresenceOf(header: Byte): AfuPresence {
    AfuPresence(Flag(header, 0x02), Flag(header, 0x04), Flag(header, 0x08),
                Flag(header, 0x20), Flag(header, 0x40), Flag(header, 0x01))
  }

  function AfuPresent(g: AfuGroups): AfuPresence {
    AfuPresence(g.cmd.Some?, g.cmdData.Some?, g.resp.Some?, g.respData.Some?, g.cfgResp.Some?, g.credits.Some?)
  }

  /** rbc as tlx_get_afu_events computes it. */
  function AfuReceiveLength(p: AfuPresence, cmdCount: nat, respCount: nat): (n: nat)
    ensures n >= 5
  {
    5 + (if p.respData then respCount + 1 else 0) + (if p.resp then 6 else 0)
      + (if p.cmdData then cmdCount + 1 else 0) + (if p.cmd then 34 else 0)
      + (if p.credits then 10 else 0) + (if p.cfgResp then 9 else 0)
  }

  /** The host copies cmdCount bytes of command data but always 64 bytes of response data, so a packet is
      whole only when a count that is used is 64. */
  predicate WholeAfuPacket(s: seq<Byte>) {
    s == [0x10] ||
    (|s| >= 5 && s[0] != 0x10 &&
     var p := AfuPresenceOf(s[0]);
     (p.cmdData ==> CountAt(s, 1) == 64) && (p.respData ==> CountAt(s, 3) == 64) &&
     |s| == AfuReceiveLength(p, CountAt(s, 1), CountAt(s, 3)))
  }

  function TakeAfuCmd(present: bool, r: seq<Byte>): (Option<AfuCmd>, seq<Byte>)
    requires present ==> |r| >= 34
  {
    if present then (Some(AfuCmdOf(r[..34])), r[34..]) else (None, r)
  }

  lemma TakeAfuCmdBack(o: Option<AfuCmd>, rest: seq<Byte>)
    ensures TakeAfuCmd(o.Some?, AfuCmdPart(o) + rest) == (if o.Some? then Some(TrimAfuCmd(o.value)) else None, rest)
  {
    if o.Some? {
      AfuCmdRoundTrip(o.value);
      assert (AfuCmdBytes(o.value) + rest)[..34] == AfuCmdBytes(o.value) && (AfuCmdBytes(o.value) + rest)[34..] == rest;
    } else {
      assert [] + rest == rest;
    }
  }

  function TakeAfuResp(present: bool, r: seq<Byte>): (Option<AfuResp>, seq<Byte>)
    requires present ==> |r| >= 6
  {
    if present then (Some(AfuRespOf(r[..6])), r[6..]) else (None, r)
  }

  lemma TakeAfuRespBack(o: Option<AfuResp>, rest: seq<Byte>)
    ensures TakeAfuResp(o.Some?, AfuRespPart(o) + rest) == (if o.Some? then Some(TrimAfuResp(o.value)) else None, rest)
  {
    if o.Some? {
      AfuRespRoundTrip(o.value);
      assert (AfuRespBytes(o.value) + rest)[..6] == AfuRespBytes(o.value)
          && (AfuRespBytes(o.value) + rest)[6..] == rest;
    } else {
      assert [] + rest == rest;
    }
  }

  function TakeCfgResp(present: bool, r: seq<Byte>): (Option<CfgResp>, seq<Byte>)
    requires present ==> |r| >= 9
  {
    if present then (Some(CfgRespOf(r[..9])), r[9..]) else (None, r)
  }

  lemma TakeCfgRespBack(o: Option<CfgResp>, rest: seq<Byte>)
    ensures TakeCfgResp(o.Some?, CfgRespPart(o) + rest) == (if o.Some? then Some(TrimCfgResp(o.value)) else None, rest)
  {
    if o.Some? {
      CfgRespRoundTrip(o.value);
      assert (CfgRespBytes(o.value) + rest)[..9] == CfgRespBytes(o.value)
          && (CfgRespBytes(o.value) + rest)[9..] == rest;
    } else {
      assert [] + rest == rest;
    }
  }

  function TakeLine(present: bool, r: seq<Byte>): (Option<LineBeat>, seq<Byte>)
    requires present ==> |r| >= 65
  {
    if present then (Some(LineBeat(r[0], r[1..65])), r[65..]) else (None, r)
  }

  lemma TakeLineBack(o: Option<LineBeat>, rest: seq<Byte>)
    ensures TakeLine(o.Some?, LinePart(o) + rest)
         == (if o.Some? then Some(TrimLine(o.value)) else None, rest)
  {
    if o.Some? {
      var r := LinePart(o) + rest;
      assert r[0] == o.value.bdi % 2 && r[1..65] == o.value.bytes && r[65..] == rest;
    } else {
      assert [] + rest == rest;
    }
  }

  function ParseAfuTail(p: AfuPresence, r3: seq<Byte>): (Option<LineBeat>, Option<CfgResp>, Option<AfuCredits>)
    requires |r3| == (if p.respData then 65 else 0) + (if p.cfgResp then 9 else 0) + (if p.credits then 10 else 0)
  {
    var (respData, r4) := TakeLine(p.respData, r3);
    var (cfgResp, r5) := TakeCfgResp(p.cfgResp, r4);
    (respData, cfgResp, if p.credits then Some(AfuCreditsOf(r5)) else None)
  }

  function ParseAfuBody(p: AfuPresence, r0: seq<Byte>): AfuGroups
    requires 5 + |r0| == AfuReceiveLength(p, 64, 64)
  {
    var (cmd, r1) := TakeAfuCmd(p.cmd, r0);
    var (cmdData, r2) := TakeLine(p.cmdData, r1);
    var (resp, r3) := TakeAfuResp(p.resp, r2);
    var (respData, cfgResp, credits) := ParseAfuTail(p, r3);
    AfuGroups(cmd, cmdData, resp, respData, cfgResp, credits)
  }

  function ParseAfuPacket(s: seq<Byte>): AfuGroups
    requires WholeAfuPacket(s)
  {
    if s == [0x10] then NO_AFU_GROUPS else ParseAfuBody(AfuPresenceOf(s[0]), s[5..])
  }

  function TrimAfu(g: AfuGroups): AfuGroups {
    AfuGroups(
      if g.cmd.Some? then Some(TrimAfuCmd(g.cmd.value)) else None,
      if g.cmdData.Some? then Some(TrimLine(g.cmdData.value)) else None,
      if g.resp.Some? then Some(TrimAfuResp(g.resp.value)) else None,
      if g.respData.Some? then Some(TrimLine(g.respData.value)) else None,
      if g.cfgResp.Some? then Some(TrimCfgResp(g.cfgResp.value)) else None,
      g.credits)
  }

  predicate AfuInWidth(g: AfuGroups) {
    && (g.cmd.Some? ==> var c := g.cmd.value;
        c.streamId < 16 && c.dl < 4 && c.pl < 8 && c.flag < 16 && c.endian < 2)
    && (g.cmdData.Some? ==> g.cmdData.value.bdi < 2)
    && (g.resp.Some? ==> g.resp.value.dl < 4 && g.resp.value.dp < 4 && g.resp.value.code < 16)
    && (g.respData.Some? ==> g.respData.value.bdi < 2)
    && (g.cfgResp.Some? ==> g.cfgResp.value.code < 16 && g.cfgResp.value.bdi < 2)
  }

  lemma AfuHeaderPresence(p: AfuPresence)
    ensures AfuPresenceOf(AfuHeader(p)) == p && Flag(AfuHeader(p), 0x10)
    ensures AfuHeader(p) == 0x10 <==> p == AfuPresent(NO_AFU_GROUPS)
  {
    var h := AfuHeader(p);
    var h64 := Bit(p.cfgResp);
    var h32 := 2 * h64 + Bit(p.respData);
    var h16 := 2 * h32 + 1;
    var h8 := 2 * h16 + Bit(p.resp);
    var h4 := 2 * h8 + Bit(p.cmdData);
    var h2 := 2 * h4 + Bit(p.cmd);
    assert h == 2 * h2 + Bit(p.credits);
    assert h / 0x02 == h2 && h / 0x04 == h4 && h / 0x08 == h8;
    assert h / 0x10 == h16 && h / 0x20 == h32 && h / 0x40 == h64;
  }

  lemma AfuTailRoundTrip(g: AfuGroups)
    ensures ParseAfuTail(AfuPresent(g), AfuTail(g))
      == (if g.respData.Some? then Some(TrimLine(g.respData.value)) else None,
          if g.cfgResp.Some? then Some(TrimCfgResp(g.cfgResp.value)) else None, g.credits)
  {
    var r5 := AfuCreditPart(g.credits);
    TakeLineBack(g.respData, CfgRespPart(g.cfgResp) + r5);
    TakeCfgRespBack(g.cfgResp, r5);
  }

  lemma AfuBodyRoundTrip(g: AfuGroups)
    ensures 5 + |AfuBody(g)| == AfuReceiveLength(AfuPresent(g), 64, 64)
    ensures ParseAfuBody(AfuPresent(g), AfuBody(g)) == TrimAfu(g)
  {
    hide TakeAfuCmd, TakeLine, TakeAfuResp, ParseAfuTail;
    hide AfuCmdPart, LinePart, AfuRespPart, AfuTail, TrimAfuCmd, TrimLine, TrimAfuResp, Pow256;
    var r3 := AfuTail(g);
    var r2 := AfuRespPart(g.resp) + r3;
    TakeAfuCmdBack(g.cmd, LinePart(g.cmdData) + r2);
    TakeLineBack(g.cmdData, r2);
    TakeAfuRespBack(g.resp, r3);
    AfuTailRoundTrip(g);
  }

  lemma AfuPacketRoundTrip(g: AfuGroups)
    ensures WholeAfuPacket(AfuPacket(g))
    ensures |AfuPacket(g)| <= TLX_BUFFER_SIZE
    ensures |AfuPacket(g)| == 1 <==> g == NO_AFU_GROUPS
    ensures Flag(AfuPacket(g)[0], 0x10)
    ensures ParseAfuPacket(AfuPacket(g)) == TrimAfu(g)
    ensures ParseAfuPacket(AfuPacket(g)) == g <==> AfuInWidth(g)
  {
    if g != NO_AFU_GROUPS {
      AfuPacketParts(g);
      AfuBodyRoundTrip(g);
      assert AfuPacket(g) != [0x10] by { assert |AfuPacket(g)| >= 5; }
    }
    AfuTrimIsWidth(g);
  }

  lemma AfuPacketParts(g: AfuGroups)
    requires g != NO_AFU_GROUPS
    ensures var s := AfuPacket(g);
      && |s| == 5 + |AfuBody(g)| && s[5..] == AfuBody(g) && AfuPresenceOf(s[0]) == AfuPresent(g) && Flag(s[0], 0x10)
      && CountAt(s, 1) == LineCount(g.cmdData) && CountAt(s, 3) == LineCount(g.respData) && s[0] != 0x10
  {
    hide AfuBody, AfuHeader, AfuPresenceOf;
    AfuHeaderPresence(AfuPresent(g));
    var s := AfuPacket(g);
    assert s[0] == AfuHeader(AfuPresent(g));
    var c := CountBytes(LineCount(g.cmdData), LineCount(g.respData));
    assert s[1] == c[0] && s[2] == c[1] && s[3] == c[2] && s[4] == c[3];
  }

  lemma AfuTrimIsWidth(g: AfuGroups)
    ensures TrimAfu(g) == g <==> AfuInWidth(g)
  {
  }
}
