/** struct AFU_EVENT as the object common/tlx_interface.c updates in place: the transmit and receive buffers
    with their moving positions, the signals and the counters. Each method is proved against the function of
    the same name in TlxEvent, and the packets against the layouts in TlxPacket. */
module TlxInterface {
  import opened Common
  import opened TlxPacket
  import E = TlxEvent

  /** `header | bit` for a one-bit mask. */
  function OrBit(header: Byte, bit: Byte): (r: Byte)
    requires bit in {0x01, 0x02, 0x04, 0x08, 0x10, 0x20, 0x40}
    ensures Flag(r, bit)
  {
    if Flag(header, bit) then header
    else
      AddBit(header, bit);
      header + bit
  }

  lemma AddBit(header: Byte, bit: Byte)
    requires bit in {0x01, 0x02, 0x04, 0x08, 0x10, 0x20, 0x40} && !Flag(header, bit)
    ensures header + bit < 0x100 && Flag(header + bit, bit)
  {
    match bit
    case 0x01 =>
    case 0x02 =>
    case 0x04 =>
    case 0x08 =>
    case 0x10 =>
    case 0x20 =>
    case 0x40 =>
  }

  function OrIf(header: Byte, bit: Byte, on: bool): Byte
    requires bit in {0x01, 0x02, 0x04, 0x08, 0x10, 0x20, 0x40}
  {
    if on then OrBit(header, bit) else header
  }

  lemma HostHeaderCommand(p: HostPresence)
    ensures OrIf(OrIf(OrIf(0x40, 0x20, p.cfg), 0x10, p.cmd), 0x08, p.cmdData)
      == 0x40 + 0x20 * Bit(p.cfg) + 0x10 * Bit(p.cmd) + 0x08 * Bit(p.cmdData)
  {
  }

  lemma HostHeaderResponse(h: Byte, p: HostPresence)
    requires h % 8 == 0
    ensures OrIf(OrIf(OrIf(h, 0x04, p.resp), 0x02, p.respData), 0x01, p.credits)
      == h + 0x04 * Bit(p.resp) + 0x02 * Bit(p.respData) + Bit(p.credits)
  {
  }

  /** Setting the flags one by one as the groups are packed gives the header of the layout. */
  lemma HostHeaderBuilt(p: HostPresence)
    ensures var h := OrIf(OrIf(OrIf(0x40, 0x20, p.cfg), 0x10, p.cmd), 0x08, p.cmdData);
      OrIf(OrIf(OrIf(h, 0x04, p.resp), 0x02, p.respData), 0x01, p.credits) == HostHeader(p)
  {
    hide OrIf;
    HostHeaderCommand(p);
    HostHeaderResponse(0x40 + 0x20 * Bit(p.cfg) + 0x10 * Bit(p.cmd) + 0x08 * Bit(p.cmdData), p);
  }

  lemma AfuHeaderBuilt(p: AfuPresence)
    ensures var h := OrIf(OrIf(OrIf(0x10, 0x02, p.cmd), 0x04, p.cmdData), 0x08, p.resp);
      OrIf(OrIf(OrIf(h, 0x20, p.respData), 0x40, p.cfgResp), 0x01, p.credits) == AfuHeader(p)
  {
  }

  // ---------- filling the transmit buffer ----------

  /** The groups packed so far. */
  ghost function Body(tbuf: array<Byte>, bp: nat): (s: seq<Byte>)
    requires 5 <= bp <= tbuf.Length
    reads tbuf
    ensures |s| == bp - 5
  {
    tbuf[5..bp]
  }

  /** The two data byte counts. */
  ghost function Counts(tbuf: array<Byte>): (c: seq<Byte>)
    requires 5 <= tbuf.Length
    reads tbuf
    ensures |c| == 4
  {
    tbuf[1..5]
  }

  ghost function Header(tbuf: array<Byte>): Byte
    requires 5 <= tbuf.Length
    reads tbuf
  {
    tbuf[0]
  }

  /** s has been put at bp and nothing else has changed. */
  twostate predicate Grown(tbuf: array<Byte>, bp: nat, bp': nat, s: seq<Byte>)
    reads tbuf
  {
    && 5 <= bp && bp' == bp + |s| <= tbuf.Length
    && Body(tbuf, bp') == old(Body(tbuf, bp)) + s
    && Header(tbuf) == old(Header(tbuf)) && Counts(tbuf) == old(Counts(tbuf))
  }

  method SetHeader(tbuf: array<Byte>, bit: Byte, ghost bp: nat)
    requires bit in {0x01, 0x02, 0x04, 0x08, 0x10, 0x20, 0x40} && 5 <= bp <= tbuf.Length
    modifies tbuf
    ensures Header(tbuf) == OrBit(old(Header(tbuf)), bit)
    ensures Body(tbuf, bp) == old(Body(tbuf, bp)) && Counts(tbuf) == old(Counts(tbuf))
  {
    tbuf[0] := OrBit(tbuf[0], bit);
  }

  function CountIf(counts: seq<Byte>, at: nat, count: nat, on: bool): (r: seq<Byte>)
    requires |counts| == 4 && at in {1, 3}
    ensures |r| == 4
  {
    if on then counts[at - 1 := count / 0x100 % 0x10][at := count % 0x100] else counts
  }

  /** A 12-bit byte count, in bytes 1-2 for command data and 3-4 for response data. */
  method SetCount(tbuf: array<Byte>, at: nat, count: nat, ghost bp: nat)
    requires at in {1, 3} && 5 <= bp <= tbuf.Length
    modifies tbuf
    ensures Counts(tbuf) == CountIf(old(Counts(tbuf)), at, count, true)
    ensures Body(tbuf, bp) == old(Body(tbuf, bp)) && Header(tbuf) == old(Header(tbuf))
  {
    tbuf[at] := count / 0x100 % 0x10;
    tbuf[at + 1] := count % 0x100;
  }

  method PutByte(tbuf: array<Byte>, bp: nat, b: Byte) returns (bp': nat)
    requires 5 <= bp < tbuf.Length
    modifies tbuf
    ensures Grown(tbuf, bp, bp', [b])
  {
    tbuf[bp] := b;
    bp' := bp + 1;
  }

  /** `for (i = 0; i < k; i++) tbuf[bp++] = (v >> ((k - 1 - i) * 8)) & 0xFF` */
  method PutWord(tbuf: array<Byte>, bp: nat, v: nat, k: nat) returns (bp': nat)
    requires 5 <= bp && bp + k <= tbuf.Length
    modifies tbuf
    ensures Grown(tbuf, bp, bp', BigEndian(v, k))
  {
    bp' := bp;
    for i := 0 to k
      invariant bp' == bp + i
      invariant Grown(tbuf, bp, bp', BigEndian(v, k)[..i])
    {
      tbuf[bp'] := ShiftBytes(v, k - 1 - i) % 0x100;
      bp' := bp' + 1;
      BigEndianByte(v, k, i);
      assert BigEndian(v, k)[..i + 1] == BigEndian(v, k)[..i] + [BigEndian(v, k)[i]];
    }
    assert BigEndian(v, k)[..k] == BigEndian(v, k);
  }

  method PutBytes(tbuf: array<Byte>, bp: nat, s: seq<Byte>) returns (bp': nat)
    requires 5 <= bp && bp + |s| <= tbuf.Length
    modifies tbuf
    ensures Grown(tbuf, bp, bp', s)
  {
    bp' := bp;
    for i := 0 to |s|
      invariant bp' == bp + i
      invariant Grown(tbuf, bp, bp', s[..i])
    {
      tbuf[bp'] := s[i];
      bp' := bp' + 1;
      assert s[..i + 1] == s[..i] + [s[i]];
    }
    assert s[..|s|] == s;
  }

  // ---------- one group after another ----------

  lemma CfgPieces(d: seq<Byte>, c: CfgCmd)
    ensures d + [c.opcode] + BigEndian(c.capptag, 2) + BigEndian(c.pa, 8) + [c.t % 2] + [c.pl % 8] + [c.bdi % 2] + c.bus
      == d + CfgBytes(c)
  {
  }

  lemma HostCmdPieces(d: seq<Byte>, c: HostCmd)
    ensures d + [c.opcode] + BigEndian(c.capptag, 2) + [c.dl % 4] + [c.pl % 8] + BigEndian(c.be, 8) + [c.end % 2]
      + BigEndian(c.pa, 8) == d + HostCmdBytes(c)
  {
  }

  lemma HostRespPieces(d: seq<Byte>, r: HostResp)
    ensures d + [r.opcode] + BigEndian(r.afutag, 2) + [r.code] + [r.pgSize] + [r.dl] + [r.dp] == d + HostRespBytes(r)
  {
  }

  lemma HostCreditPieces(d: seq<Byte>, c: HostCredits)
    ensures d + [c.cmdInitial] + [c.cmdDataInitial] + [c.respInitial] + [c.respDataInitial] + [c.resp] + [c.cmd]
      + [c.respData] + [c.cmdData] + [c.cfgAck] == d + HostCreditBytes(c)
  {
  }

  lemma BeatPieces(d: seq<Byte>, bdi: Byte, bytes: seq<Byte>)
    ensures d + [bdi % 2] + bytes == d + BeatBytes(bdi, bytes)
  {
  }

  lemma AfuCmdPieces(d: seq<Byte>, c: AfuCmd)
    ensures d + [c.opcode] + BigEndian(c.actag, 2) + [c.streamId % 16] + c.eaOrObj + BigEndian(c.afutag, 2)
      + [c.dl % 4] + [c.pl % 8] + BigEndian(c.be, 8) + [c.flag % 16] + [c.endian % 2] + BigEndian(c.bdf, 2)
      + BigEndian(c.pasid, 4) + [c.pgSize] == d + AfuCmdBytes(c)
  {
    hide BigEndian;
    var tail := [c.flag % 16, c.endian % 2] + (BigEndian(c.bdf, 2) + (BigEndian(c.pasid, 4) + [c.pgSize]));
    var mid := [c.dl % 4, c.pl % 8] + (BigEndian(c.be, 8) + tail);
    assert AfuCmdBytes(c) == [c.opcode] + (BigEndian(c.actag, 2)
      + ([c.streamId % 16] + (c.eaOrObj + (BigEndian(c.afutag, 2) + mid))));
    var front := d + [c.opcode] + BigEndian(c.actag, 2) + [c.streamId % 16] + c.eaOrObj + BigEndian(c.afutag, 2);
    assert front + mid == d + AfuCmdBytes(c);
    var front2 := front + [c.dl % 4] + [c.pl % 8] + BigEndian(c.be, 8);
    assert front2 + tail == front + mid;
    assert front2 + [c.flag % 16] + [c.endian % 2] + BigEndian(c.bdf, 2) + BigEndian(c.pasid, 4)
      + [c.pgSize] == front2 + tail;
  }

  lemma AfuRespPieces(d: seq<Byte>, r: AfuResp)
    ensures d + [r.opcode] + [r.dl % 4] + BigEndian(r.capptag, 2) + [r.dp % 4] + [r.code % 16] == d + AfuRespBytes(r)
  {
  }

  lemma CfgRespPieces(d: seq<Byte>, r: CfgResp)
    ensures d + [r.opcode] + BigEndian(r.capptag, 2) + [r.code % 16] + [r.bdi % 2] + r.bus == d + CfgRespBytes(r)
  {
  }

  lemma AfuCreditPieces(d: seq<Byte>, c: AfuCredits)
    ensures d + [c.respInitial] + [c.cmdInitial] + [c.cfgInitial] + [c.resp] + [c.cmd] + [c.cfg]
      + [c.respRdReq] + [c.respRdCnt] + [c.cmdRdReq] + [c.cmdRdCnt] == d + AfuCreditBytes(c)
  {
  }

  // ---------- reading the receive buffer ----------

  /** `v = 0; for (bc = 0; bc < k; bc++) v = (v << 8) | rbuf[rbc++]` */
  method GetWord(rbuf: array<Byte>, rbc: nat, k: nat) returns (v: nat)
    requires rbc + k <= rbuf.Length
    ensures v == FromBigEndian(rbuf[rbc..rbc + k])
  {
    v := 0;
    for i := 0 to k
      invariant v == FromBigEndian(rbuf[rbc..rbc + i])
    {
      assert rbuf[rbc..rbc + i + 1][..i] == rbuf[rbc..rbc + i];
      v := v * 0x100 + rbuf[rbc + i];
    }
  }

  method GetWord16(rbuf: array<Byte>, rbc: nat) returns (v: U16)
    requires rbc + 2 <= rbuf.Length
    ensures v == From16(rbuf[rbc..rbc + 2])
  {
    FromBigEndianBound(rbuf[rbc..rbc + 2]);
    PowersOf256();
    v := GetWord(rbuf, rbc, 2);
  }

  method GetWord32(rbuf: array<Byte>, rbc: nat) returns (v: U32)
    requires rbc + 4 <= rbuf.Length
    ensures v == From32(rbuf[rbc..rbc + 4])
  {
    FromBigEndianBound(rbuf[rbc..rbc + 4]);
    PowersOf256();
    v := GetWord(rbuf, rbc, 4);
  }

  method GetWord64(rbuf: array<Byte>, rbc: nat) returns (v: U64)
    requires rbc + 8 <= rbuf.Length
    ensures v == From64(rbuf[rbc..rbc + 8])
  {
    FromBigEndianBound(rbuf[rbc..rbc + 8]);
    PowersOf256();
    v := GetWord(rbuf, rbc, 8);
  }

  method GetBytes(rbuf: array<Byte>, rbc: nat, count: nat) returns (s: seq<Byte>)
    requires rbc + count <= rbuf.Length
    ensures s == rbuf[rbc..rbc + count]
  {
    s := [];
    for i := 0 to count
      invariant s == rbuf[rbc..rbc + i]
    {
      s := s + [rbuf[rbc + i]];
    }
  }

  /** A stretch of the buffer seen from the group that starts it. */
  lemma Slice(rbuf: array<Byte>, rbc: nat, len: nat, n: nat)
    requires rbc + len <= n <= rbuf.Length
    ensures rbuf[rbc..n][..len] == rbuf[rbc..rbc + len] && rbuf[rbc..n][len..] == rbuf[rbc + len..n]
  {
  }

  lemma SubSlice(rbuf: array<Byte>, rbc: nat, len: nat, i: nat, j: nat)
    requires i <= j <= len && rbc + len <= rbuf.Length
    ensures rbuf[rbc..rbc + len][i..j] == rbuf[rbc + i..rbc + j]
  {
    var s := rbuf[rbc..rbc + len];
    assert forall k :: 0 <= k < j - i ==> s[i..j][k] == rbuf[rbc + i + k];
  }

  // ---------- the whole packet ----------

  lemma HostBodyPieces(g: HostGroups)
    ensures [] + CfgPart(g.cfg) + HostCmdPart(g.cmd) + BeatPart(g.cmdData) + HostRespPart(g.resp) + BeatPart(g.respData)
      + HostCreditPart(g.credits) == HostBody(g)
    ensures |HostBody(g)| == 0 <==> g == NO_HOST_GROUPS
  {
    hide CfgPart, HostCmdPart, BeatPart, HostRespPart, HostCreditPart;
    var a, b := CfgPart(g.cfg), HostCmdPart(g.cmd);
    assert [] + a == a;
    assert a + b + BeatPart(g.cmdData) + HostTail(g) == HostBody(g);
  }

  lemma AfuBodyPieces(g: AfuGroups)
    ensures [] + AfuCmdPart(g.cmd) + LinePart(g.cmdData) + AfuRespPart(g.resp) + LinePart(g.respData)
      + CfgRespPart(g.cfgResp) + AfuCreditPart(g.credits) == AfuBody(g)
    ensures |AfuBody(g)| == 0 <==> g == NO_AFU_GROUPS
  {
    hide AfuCmdPart, LinePart, AfuRespPart, CfgRespPart, AfuCreditPart;
    var a, b := AfuCmdPart(g.cmd), LinePart(g.cmdData);
    assert [] + a == a;
    assert a + b + AfuRespPart(g.resp) + AfuTail(g) == AfuBody(g);
  }

  lemma CountsBuilt(cmdData: bool, cmdCount: nat, respData: bool, respCount: nat)
    requires !cmdData ==> cmdCount == 0
    requires !respData ==> respCount == 0
    ensures CountIf(CountIf([0, 0, 0, 0], 1, cmdCount, cmdData), 3, respCount, respData)
      == CountBytes(cmdCount, respCount)
  {
  }

  lemma LoneHeaders()
    ensures HostHeader(HostPresent(NO_HOST_GROUPS)) == 0x40 && AfuHeader(AfuPresent(NO_AFU_GROUPS)) == 0x10
  {
  }

  lemma BufferParts(tbuf: array<Byte>, bp: nat)
    requires 5 <= bp <= tbuf.Length
    ensures tbuf[..bp] == [Header(tbuf)] + Counts(tbuf) + Body(tbuf, bp)
    ensures tbuf[..1] == [Header(tbuf)]
  {
  }

  class AfuEvent {
    var clock: bool
    var host: E.HostSignals
    var afu: E.AfuSignals
    var avail: E.Avail
    const tbuf: array<Byte>
    const rbuf: array<Byte>

    ghost function View(): E.Event
      reads this
    {
      E.Event(clock, host, afu, avail)
    }

    ghost predicate Valid() {
      tbuf != rbuf && tbuf.Length == TLX_BUFFER_SIZE && rbuf.Length == TLX_BUFFER_SIZE
    }

    /** tlx_event_reset. */
    constructor ()
      ensures Valid() && fresh(tbuf) && fresh(rbuf) && View() == E.RESET
    {
      clock, host, afu, avail := false, E.RESET.host, E.RESET.afu, E.RESET.avail;
      tbuf := new Byte[TLX_BUFFER_SIZE];
      rbuf := new Byte[TLX_BUFFER_SIZE];
    }

    // ---------- packing, host side ----------

    method PackCfg(bp: nat) returns (bp': nat)
      requires 5 <= bp && bp + 18 <= tbuf.Length
      modifies this`host, tbuf
      ensures 5 <= bp' == bp + |CfgPart(old(host.cfg))| <= tbuf.Length
      ensures Body(tbuf, bp') == old(Body(tbuf, bp)) + CfgPart(old(host.cfg)) && Counts(tbuf) == old(Counts(tbuf))
      ensures Header(tbuf) == OrIf(old(Header(tbuf)), 0x20, old(host.cfg.Some?))
      ensures host == old(host).(cfg := None)
    {
      hide BigEndian, OrBit, Body, Header, Counts, CfgBytes;
      bp' := bp;
      if host.cfg.Some? {
        var c := host.cfg.value;
        SetHeader(tbuf, 0x20, bp);
        bp' := PutByte(tbuf, bp', c.opcode);
        bp' := PutWord(tbuf, bp', c.capptag, 2);
        bp' := PutWord(tbuf, bp', c.pa, 8);
        bp' := PutByte(tbuf, bp', c.t % 2);
        bp' := PutByte(tbuf, bp', c.pl % 8);
        bp' := PutByte(tbuf, bp', c.bdi % 2);
        bp' := PutBytes(tbuf, bp', c.bus);
        CfgPieces(old(Body(tbuf, bp)), c);
        host := host.(cfg := None);
      }
    }

    method PackHostCmd(bp: nat) returns (bp': nat)
      requires 5 <= bp && bp + 22 <= tbuf.Length
      modifies this`host, tbuf
      ensures 5 <= bp' == bp + |HostCmdPart(old(host.cmd))| <= tbuf.Length
      ensures Body(tbuf, bp') == old(Body(tbuf, bp)) + HostCmdPart(old(host.cmd))
      ensures Header(tbuf) == OrIf(old(Header(tbuf)), 0x10, old(host.cmd.Some?))
      ensures Counts(tbuf) == old(Counts(tbuf))
      ensures host == old(host).(cmd := None)
    {
      hide BigEndian, OrBit, Body, Header, Counts, HostCmdBytes;
      bp' := bp;
      if host.cmd.Some? {
        var c := host.cmd.value;
        SetHeader(tbuf, 0x10, bp);
        bp' := PutByte(tbuf, bp', c.opcode);
        bp' := PutWord(tbuf, bp', c.capptag, 2);
        bp' := PutByte(tbuf, bp', c.dl % 4);
        bp' := PutByte(tbuf, bp', c.pl % 8);
        bp' := PutWord(tbuf, bp', c.be, 8);
        bp' := PutByte(tbuf, bp', c.end % 2);
        bp' := PutWord(tbuf, bp', c.pa, 8);
        HostCmdPieces(old(Body(tbuf, bp)), c);
        host := host.(cmd := None);
      }
    }

    method PackHostCmdData(bp: nat) returns (bp': nat)
      requires 5 <= bp && bp + 257 <= tbuf.Length
      modifies this`host, tbuf
      ensures 5 <= bp' == bp + |BeatPart(old(host.cmdData))| <= tbuf.Length
      ensures Body(tbuf, bp') == old(Body(tbuf, bp)) + BeatPart(old(host.cmdData))
      ensures Header(tbuf) == OrIf(old(Header(tbuf)), 0x08, old(host.cmdData.Some?))
      ensures Counts(tbuf) == CountIf(old(Counts(tbuf)), 1, ByteCount(old(host.cmdData)), old(host.cmdData.Some?))
      ensures host == old(host).(cmdData := None)
    {
      hide BigEndian, OrBit, Body, Header, Counts, BeatBytes;
      bp' := bp;
      if host.cmdData.Some? {
        var c := host.cmdData.value;
        SetHeader(tbuf, 0x08, bp);
        SetCount(tbuf, 1, |c.bytes|, bp);
        bp' := PutByte(tbuf, bp', c.bdi % 2);
        bp' := PutBytes(tbuf, bp', c.bytes);
        BeatPieces(old(Body(tbuf, bp)), c.bdi, c.bytes);
        host := host.(cmdData := None);
      }
    }

    method PackHostResp(bp: nat) returns (bp': nat)
      requires 5 <= bp && bp + 7 <= tbuf.Length
      modifies this`host, tbuf
      ensures 5 <= bp' == bp + |HostRespPart(old(host.resp))| <= tbuf.Length
      ensures Body(tbuf, bp') == old(Body(tbuf, bp)) + HostRespPart(old(host.resp))
      ensures Header(tbuf) == OrIf(old(Header(tbuf)), 0x04, old(host.resp.Some?))
      ensures Counts(tbuf) == old(Counts(tbuf))
      ensures host == old(host).(resp := None)
    {
      hide BigEndian, OrBit, Body, Header, Counts, HostRespBytes;
      bp' := bp;
      if host.resp.Some? {
        var c := host.resp.value;
        SetHeader(tbuf, 0x04, bp);
        bp' := PutByte(tbuf, bp', c.opcode);
        bp' := PutWord(tbuf, bp', c.afutag, 2);
        bp' := PutByte(tbuf, bp', c.code);
        bp' := PutByte(tbuf, bp', c.pgSize);
        bp' := PutByte(tbuf, bp', c.dl);
        bp' := PutByte(tbuf, bp', c.dp);
        HostRespPieces(old(Body(tbuf, bp)), c);
        host := host.(resp := None);
      }
    }

    method PackHostRespData(bp: nat) returns (bp': nat)
      requires 5 <= bp && bp + 257 <= tbuf.Length
      modifies this`host, tbuf
      ensures 5 <= bp' == bp + |BeatPart(old(host.respData))| <= tbuf.Length
      ensures Body(tbuf, bp') == old(Body(tbuf, bp)) + BeatPart(old(host.respData))
      ensures Header(tbuf) == OrIf(old(Header(tbuf)), 0x02, old(host.respData.Some?))
      ensures Counts(tbuf) == CountIf(old(Counts(tbuf)), 3, ByteCount(old(host.respData)), old(host.respData.Some?))
      ensures host == old(host).(respData := None)
    {
      hide BigEndian, OrBit, Body, Header, Counts, BeatBytes;
      bp' := bp;
      if host.respData.Some? {
        var c := host.respData.value;
        SetHeader(tbuf, 0x02, bp);
        SetCount(tbuf, 3, |c.bytes|, bp);
        bp' := PutByte(tbuf, bp', c.bdi % 2);
        bp' := PutBytes(tbuf, bp', c.bytes);
        BeatPieces(old(Body(tbuf, bp)), c.bdi, c.bytes);
        host := host.(respData := None);
      }
    }

    method PackHostCredits(bp: nat) returns (bp': nat)
      requires 5 <= bp && bp + 9 <= tbuf.Length
      modifies this`host, tbuf
      ensures 5 <= bp' == bp + |HostCreditPart(old(E.HostOut(host).credits))| <= tbuf.Length
      ensures Body(tbuf, bp') == old(Body(tbuf, bp)) + HostCreditPart(old(E.HostOut(host).credits))
      ensures Header(tbuf) == OrIf(old(Header(tbuf)), 0x01, old(host.creditValid))
      ensures Counts(tbuf) == old(Counts(tbuf))
      ensures host == old(host).(creditValid := false, credits := E.HostSent(old(host)).credits)
    {
      hide OrBit, Body, Header, Counts, HostCreditBytes;
      bp' := bp;
      if host.creditValid {
        var c := host.credits;
        SetHeader(tbuf, 0x01, bp);
        bp' := PutByte(tbuf, bp', c.cmdInitial);
        bp' := PutByte(tbuf, bp', c.cmdDataInitial);
        bp' := PutByte(tbuf, bp', c.respInitial);
        bp' := PutByte(tbuf, bp', c.respDataInitial);
        bp' := PutByte(tbuf, bp', c.resp);
        bp' := PutByte(tbuf, bp', c.cmd);
        bp' := PutByte(tbuf, bp', c.respData);
        bp' := PutByte(tbuf, bp', c.cmdData);
        bp' := PutByte(tbuf, bp', c.cfgAck);
        HostCreditPieces(old(Body(tbuf, bp)), c);
        host := host.(creditValid := false,
            credits := c.(cmd := 0, cfgAck := 0, cmdData := 0, resp := 0, respData := 0));
      }
    }

    // ---------- packing, AFU side ----------

    method PackAfuCmd(bp: nat) returns (bp': nat)
      requires 5 <= bp && bp + 34 <= tbuf.Length
      modifies this`afu, tbuf
      ensures 5 <= bp' == bp + |AfuCmdPart(old(afu.cmd))| <= tbuf.Length
      ensures Body(tbuf, bp') == old(Body(tbuf, bp)) + AfuCmdPart(old(afu.cmd))
      ensures Header(tbuf) == OrIf(old(Header(tbuf)), 0x02, old(afu.cmd.Some?))
      ensures Counts(tbuf) == old(Counts(tbuf))
      ensures afu == old(afu).(cmd := None)
    {
      hide BigEndian, OrBit, Body, Header, Counts, AfuCmdBytes;
      bp' := bp;
      if afu.cmd.Some? {
        var c := afu.cmd.value;
        SetHeader(tbuf, 0x02, bp);
        bp' := PutByte(tbuf, bp', c.opcode);
        bp' := PutWord(tbuf, bp', c.actag, 2);
        bp' := PutByte(tbuf, bp', c.streamId % 16);
        bp' := PutBytes(tbuf, bp', c.eaOrObj);
        bp' := PutWord(tbuf, bp', c.afutag, 2);
        bp' := PutByte(tbuf, bp', c.dl % 4);
        bp' := PutByte(tbuf, bp', c.pl % 8);
        bp' := PutWord(tbuf, bp', c.be, 8);
        bp' := PutByte(tbuf, bp', c.flag % 16);
        bp' := PutByte(tbuf, bp', c.endian % 2);
        bp' := PutWord(tbuf, bp', c.bdf, 2);
        bp' := PutWord(tbuf, bp', c.pasid, 4);
        bp' := PutByte(tbuf, bp', c.pgSize);
        AfuCmdPieces(old(Body(tbuf, bp)), c);
        afu := afu.(cmd := None);
      }
    }

    method PackAfuCmdData(bp: nat) returns (bp': nat)
      requires 5 <= bp && bp + 65 <= tbuf.Length
      modifies this`afu, tbuf
      ensures 5 <= bp' == bp + |LinePart(old(afu.cmdData))| <= tbuf.Length
      ensures Body(tbuf, bp') == old(Body(tbuf, bp)) + LinePart(old(afu.cmdData))
      ensures Header(tbuf) == OrIf(old(Header(tbuf)), 0x04, old(afu.cmdData.Some?))
      ensures Counts(tbuf) == CountIf(old(Counts(tbuf)), 1, LineCount(old(afu.cmdData)), old(afu.cmdData.Some?))
      ensures afu == old(afu).(cmdData := None)
    {
      hide BigEndian, OrBit, Body, Header, Counts, BeatBytes;
      bp' := bp;
      if afu.cmdData.Some? {
        var c := afu.cmdData.value;
        SetHeader(tbuf, 0x04, bp);
        SetCount(tbuf, 1, 64, bp);
        bp' := PutByte(tbuf, bp', c.bdi % 2);
        bp' := PutBytes(tbuf, bp', c.bytes);
        BeatPieces(old(Body(tbuf, bp)), c.bdi, c.bytes);
        afu := afu.(cmdData := None);
      }
    }

    method PackAfuResp(bp: nat) returns (bp': nat)
      requires 5 <= bp && bp + 6 <= tbuf.Length
      modifies this`afu, tbuf
      ensures 5 <= bp' == bp + |AfuRespPart(old(afu.resp))| <= tbuf.Length
      ensures Body(tbuf, bp') == old(Body(tbuf, bp)) + AfuRespPart(old(afu.resp))
      ensures Header(tbuf) == OrIf(old(Header(tbuf)), 0x08, old(afu.resp.Some?))
      ensures Counts(tbuf) == old(Counts(tbuf))
      ensures afu == old(afu).(resp := None)
    {
      hide BigEndian, OrBit, Body, Header, Counts, AfuRespBytes;
      bp' := bp;
      if afu.resp.Some? {
        var c := afu.resp.value;
        SetHeader(tbuf, 0x08, bp);
        bp' := PutByte(tbuf, bp', c.opcode);
        bp' := PutByte(tbuf, bp', c.dl % 4);
        bp' := PutWord(tbuf, bp', c.capptag, 2);
        bp' := PutByte(tbuf, bp', c.dp % 4);
        bp' := PutByte(tbuf, bp', c.code % 16);
        AfuRespPieces(old(Body(tbuf, bp)), c);
        afu := afu.(resp := None);
      }
    }

    method PackAfuRespData(bp: nat) returns (bp': nat)
      requires 5 <= bp && bp + 65 <= tbuf.Length
      modifies this`afu, tbuf
      ensures 5 <= bp' == bp + |LinePart(old(afu.respData))| <= tbuf.Length
      ensures Body(tbuf, bp') == old(Body(tbuf, bp)) + LinePart(old(afu.respData))
      ensures Header(tbuf) == OrIf(old(Header(tbuf)), 0x20, old(afu.respData.Some?))
      ensures Counts(tbuf) == CountIf(old(Counts(tbuf)), 3, LineCount(old(afu.respData)), old(afu.respData.Some?))
      ensures afu == old(afu).(respData := None)
    {
      hide BigEndian, OrBit, Body, Header, Counts, BeatBytes;
      bp' := bp;
      if afu.respData.Some? {
        var c := afu.respData.value;
        SetHeader(tbuf, 0x20, bp);
        SetCount(tbuf, 3, 64, bp);
        bp' := PutByte(tbuf, bp', c.bdi % 2);
        bp' := PutBytes(tbuf, bp', c.bytes);
        BeatPieces(old(Body(tbuf, bp)), c.bdi, c.bytes);
        afu := afu.(respData := None);
      }
    }

    method PackCfgResp(bp: nat) returns (bp': nat)
      requires 5 <= bp && bp + 9 <= tbuf.Length
      modifies this`afu, tbuf
      ensures 5 <= bp' == bp + |CfgRespPart(old(afu.cfgResp))| <= tbuf.Length
      ensures Body(tbuf, bp') == old(Body(tbuf, bp)) + CfgRespPart(old(afu.cfgResp))
      ensures Header(tbuf) == OrIf(old(Header(tbuf)), 0x40, old(afu.cfgResp.Some?))
      ensures Counts(tbuf) == old(Counts(tbuf))
      ensures afu == old(afu).(cfgResp := None)
    {
      hide BigEndian, OrBit, Body, Header, Counts, CfgRespBytes;
      bp' := bp;
      if afu.cfgResp.Some? {
        var c := afu.cfgResp.value;
        SetHeader(tbuf, 0x40, bp);
        bp' := PutByte(tbuf, bp', c.opcode);
        bp' := PutWord(tbuf, bp', c.capptag, 2);
        bp' := PutByte(tbuf, bp', c.code % 16);
        bp' := PutByte(tbuf, bp', c.bdi % 2);
        bp' := PutBytes(tbuf, bp', c.bus);
        CfgRespPieces(old(Body(tbuf, bp)), c);
        afu := afu.(cfgResp := None);
      }
    }

    method PackAfuCredits(bp: nat) returns (bp': nat)
      requires 5 <= bp && bp + 10 <= tbuf.Length
      modifies this`afu, tbuf
      ensures 5 <= bp' == bp + |AfuCreditPart(old(E.AfuOut(afu).credits))| <= tbuf.Length
      ensures Body(tbuf, bp') == old(Body(tbuf, bp)) + AfuCreditPart(old(E.AfuOut(afu).credits))
      ensures Header(tbuf) == OrIf(old(Header(tbuf)), 0x01, old(afu.creditReqValid))
      ensures Counts(tbuf) == old(Counts(tbuf))
      ensures afu == old(afu).(creditReqValid := false, credits := E.AfuSent(old(afu)).credits)
    {
      hide OrBit, Body, Header, Counts, AfuCreditBytes;
      bp' := bp;
      if afu.creditReqValid {
        var c := afu.credits;
        SetHeader(tbuf, 0x01, bp);
        bp' := PutByte(tbuf, bp', c.respInitial);
        bp' := PutByte(tbuf, bp', c.cmdInitial);
        bp' := PutByte(tbuf, bp', c.cfgInitial);
        bp' := PutByte(tbuf, bp', c.resp);
        bp' := PutByte(tbuf, bp', c.cmd);
        bp' := PutByte(tbuf, bp', c.cfg);
        bp' := PutByte(tbuf, bp', c.respRdReq);
        bp' := PutByte(tbuf, bp', c.respRdCnt);
        bp' := PutByte(tbuf, bp', c.cmdRdReq);
        bp' := PutByte(tbuf, bp', c.cmdRdCnt);
        AfuCreditPieces(old(Body(tbuf, bp)), c);
        afu := afu.(creditReqValid := false, credits := c.(cmd := 0, cfg := 0, resp := 0));
      }
    }

    // ---------- the link functions ----------

    /** Every byte of the header area is written before any group is packed. */
    method StartPacket(header: Byte)
      requires Valid()
      modifies tbuf
      ensures Header(tbuf) == header && Counts(tbuf) == [0, 0, 0, 0] && Body(tbuf, 5) == []
    {
      tbuf[0] := header;
      tbuf[1] := 0;
      tbuf[2] := 0;
      tbuf[3] := 0;
      tbuf[4] := 0;
    }

    method PackHostCommand() returns (bp: nat)
      requires Valid()
      modifies this`host, tbuf
      ensures 5 <= bp <= 302
      ensures var h := old(host);
        && Body(tbuf, bp) == [] + CfgPart(h.cfg) + HostCmdPart(h.cmd) + BeatPart(h.cmdData)
        && Header(tbuf) == OrIf(OrIf(OrIf(0x40, 0x20, h.cfg.Some?), 0x10, h.cmd.Some?), 0x08, h.cmdData.Some?)
        && Counts(tbuf) == CountIf([0, 0, 0, 0], 1, ByteCount(h.cmdData), h.cmdData.Some?)
        && host == h.(cfg := None, cmd := None, cmdData := None)
      ensures bp == 5 + |Body(tbuf, bp)|
    {
      hide Header, Counts, Body, CfgPart, HostCmdPart, BeatPart, OrIf, CountIf;
      StartPacket(0x40);
      bp := 5;
      bp := PackCfg(bp);
      bp := PackHostCmd(bp);
      bp := PackHostCmdData(bp);
    }

    method PackHostResponse(bp: nat) returns (bp': nat)
      requires 5 <= bp <= 302 && Valid()
      modifies this`host, tbuf
      ensures 5 <= bp' <= tbuf.Length
      ensures var h := old(host);
        && Body(tbuf, bp') == old(Body(tbuf, bp))
            + HostRespPart(h.resp) + BeatPart(h.respData) + HostCreditPart(E.HostOut(h).credits)
        && Header(tbuf) == OrIf(OrIf(OrIf(old(Header(tbuf)), 0x04, h.resp.Some?), 0x02, h.respData.Some?), 0x01,
            h.creditValid)
        && Counts(tbuf) == CountIf(old(Counts(tbuf)), 3, ByteCount(h.respData), h.respData.Some?)
        && host == E.HostSent(h).(cfg := h.cfg, cmd := h.cmd, cmdData := h.cmdData)
      ensures bp' == 5 + |Body(tbuf, bp')|
    {
      hide Header, Counts, Body, HostRespPart, BeatPart, HostCreditPart, OrIf, CountIf;
      bp' := bp;
      bp' := PackHostResp(bp');
      bp' := PackHostRespData(bp');
      bp' := PackHostCredits(bp');
    }

    /** The six groups of tlx_signal_afu_model, in packet order. */
    method PackHostGroups() returns (bp: nat)
      requires Valid()
      modifies this`host, tbuf
      ensures var g := E.HostOut(old(host));
        && bp == 5 + |HostBody(g)| <= tbuf.Length && Body(tbuf, bp) == HostBody(g)
        && Header(tbuf) == HostHeader(HostPresent(g))
        && Counts(tbuf) == CountBytes(ByteCount(g.cmdData), ByteCount(g.respData))
      ensures host == E.HostSent(old(host))
    {
      ghost var g := E.HostOut(host);
      HostBodyPieces(g);
      HostHeaderBuilt(HostPresent(g));
      CountsBuilt(g.cmdData.Some?, ByteCount(g.cmdData), g.respData.Some?, ByteCount(g.respData));
      hide Header, Counts, Body, CfgPart, HostCmdPart, BeatPart, HostRespPart, HostCreditPart, HostBody, OrIf,
        CountIf, CountBytes, HostHeader;
      bp := PackHostCommand();
      bp := PackHostResponse(bp);
    }

    /** tlx_signal_afu_model; sent is what the loop around send() puts on the wire. */
    method SignalAfuModel() returns (rc: E.Rc, sent: seq<seq<Byte>>)
      requires Valid()
      modifies this`clock, this`host, tbuf
      ensures (rc, View(), sent) == E.SignalAfuModel(old(View()))
    {
      hide Header, Counts, Body, HostBody, CountBytes, HostHeader;
      if clock {
        return E.TransmissionError, [];
      }
      clock := true;
      var bp := PackHostGroups();
      HostBodyPieces(E.HostOut(old(host)));
      LoneHeaders();
      BufferParts(tbuf, bp);
      if bp == 5 {
        bp := 1;
      }
      sent := [tbuf[..bp]];
      rc := E.Success;
    }

    method PackAfuCommand() returns (bp: nat)
      requires Valid()
      modifies this`afu, tbuf
      ensures 5 <= bp <= 110
      ensures var a := old(afu);
        && Body(tbuf, bp) == [] + AfuCmdPart(a.cmd) + LinePart(a.cmdData) + AfuRespPart(a.resp)
        && Header(tbuf) == OrIf(OrIf(OrIf(0x10, 0x02, a.cmd.Some?), 0x04, a.cmdData.Some?), 0x08, a.resp.Some?)
        && Counts(tbuf) == CountIf([0, 0, 0, 0], 1, LineCount(a.cmdData), a.cmdData.Some?)
        && afu == a.(cmd := None, cmdData := None, resp := None)
      ensures bp == 5 + |Body(tbuf, bp)|
    {
      hide Header, Counts, Body, AfuCmdPart, LinePart, AfuRespPart, OrIf, CountIf;
      StartPacket(0x10);
      bp := 5;
      bp := PackAfuCmd(bp);
      bp := PackAfuCmdData(bp);
      bp := PackAfuResp(bp);
    }

    method PackAfuResponse(bp: nat) returns (bp': nat)
      requires 5 <= bp <= 110 && Valid()
      modifies this`afu, tbuf
      ensures 5 <= bp' <= tbuf.Length
      ensures var a := old(afu);
        && Body(tbuf, bp') == old(Body(tbuf, bp))
            + LinePart(a.respData) + CfgRespPart(a.cfgResp) + AfuCreditPart(E.AfuOut(a).credits)
        && Header(tbuf) == OrIf(OrIf(OrIf(old(Header(tbuf)), 0x20, a.respData.Some?), 0x40, a.cfgResp.Some?), 0x01,
            a.creditReqValid)
        && Counts(tbuf) == CountIf(old(Counts(tbuf)), 3, LineCount(a.respData), a.respData.Some?)
        && afu == E.AfuSent(a).(cmd := a.cmd, cmdData := a.cmdData, resp := a.resp)
      ensures bp' == 5 + |Body(tbuf, bp')|
    {
      hide Header, Counts, Body, LinePart, CfgRespPart, AfuCreditPart, OrIf, CountIf;
      bp' := bp;
      bp' := PackAfuRespData(bp');
      bp' := PackCfgResp(bp');
      bp' := PackAfuCredits(bp');
    }

    method PackAfuGroups() returns (bp: nat)
      requires Valid()
      modifies this`afu, tbuf
      ensures var g := E.AfuOut(old(afu));
        && bp == 5 + |AfuBody(g)| <= tbuf.Length && Body(tbuf, bp) == AfuBody(g)
        && Header(tbuf) == AfuHeader(AfuPresent(g))
        && Counts(tbuf) == CountBytes(LineCount(g.cmdData), LineCount(g.respData))
      ensures afu == E.AfuSent(old(afu))
    {
      ghost var g := E.AfuOut(afu);
      AfuBodyPieces(g);
      AfuHeaderBuilt(AfuPresent(g));
      CountsBuilt(g.cmdData.Some?, LineCount(g.cmdData), g.respData.Some?, LineCount(g.respData));
      hide Header, Counts, Body, AfuCmdPart, LinePart, AfuRespPart, CfgRespPart, AfuCreditPart, AfuBody, OrIf,
        CountIf, CountBytes, AfuHeader;
      bp := PackAfuCommand();
      bp := PackAfuResponse(bp);
    }

    /** tlx_signal_tlx_model. */
    method SignalTlxModel() returns (sent: seq<seq<Byte>>)
      requires Valid()
      modifies this`clock, this`afu, tbuf
      ensures (View(), sent) == E.SignalTlxModel(old(View()))
    {
      hide Header, Counts, Body, AfuBody, CountBytes, AfuHeader;
      if !clock {
        return [];
      }
      clock := false;
      var bp := PackAfuGroups();
      AfuBodyPieces(E.AfuOut(old(afu)));
      LoneHeaders();
      BufferParts(tbuf, bp);
      if bp == 5 {
        bp := 1;
      }
      sent := [tbuf[..bp]];
    }

    // ---------- parsing, AFU side ----------

    method ParseCfg(rbc: nat, ghost n: nat) returns (rbc': nat)
      requires Valid() && 5 <= rbc <= n <= rbuf.Length && (Flag(rbuf[0], 0x20) ==> rbc + 18 <= n)
      modifies this`host, this`afu
      ensures rbc' == rbc + if Flag(rbuf[0], 0x20) then 18 else 0
      ensures TakeCfg(Flag(rbuf[0], 0x20), rbuf[rbc..n]) == (host.cfg, rbuf[rbc'..n])
      ensures host == old(host).(cfg := host.cfg) && (host.cfg.Some? <==> Flag(rbuf[0], 0x20))
      ensures afu == old(afu).(credits := old(afu.credits).(
        cfg := if Flag(rbuf[0], 0x20) then old(afu.credits.cfg) else 0))
    {
      hide FromBigEndian, From16, From32, From64;
      rbc' := rbc;
      if Flag(rbuf[0], 0x20) {
        Slice(rbuf, rbc, 18, n);
        var opcode := rbuf[rbc + 0];
        var capptag := GetWord16(rbuf, rbc + 1);
        SubSlice(rbuf, rbc, 18, 1, 3);
        var pa := GetWord64(rbuf, rbc + 3);
        SubSlice(rbuf, rbc, 18, 3, 11);
        var t := rbuf[rbc + 11];
        var pl := rbuf[rbc + 12];
        var bdi := rbuf[rbc + 13];
        var bus := GetBytes(rbuf, rbc + 14, 4);
        SubSlice(rbuf, rbc, 18, 14, 18);
        host := host.(cfg := Some(CfgCmd(opcode, capptag, pa, t, pl, bdi, bus)));
        rbc' := rbc + 18;
      } else {
        host := host.(cfg := None);
        afu := afu.(credits := afu.credits.(cfg := 0));
      }
    }

    method ParseHostCmd(rbc: nat, ghost n: nat) returns (rbc': nat)
      requires Valid() && 5 <= rbc <= n <= rbuf.Length && (Flag(rbuf[0], 0x10) ==> rbc + 22 <= n)
      modifies this`host, this`afu
      ensures rbc' == rbc + if Flag(rbuf[0], 0x10) then 22 else 0
      ensures TakeHostCmd(Flag(rbuf[0], 0x10), rbuf[rbc..n]) == (host.cmd, rbuf[rbc'..n])
      ensures host == old(host).(cmd := host.cmd) && (host.cmd.Some? <==> Flag(rbuf[0], 0x10))
      ensures afu == old(afu).(credits := old(afu.credits).(
        cmd := if Flag(rbuf[0], 0x10) then old(afu.credits.cmd) else 0))
    {
      hide FromBigEndian, From16, From32, From64;
      rbc' := rbc;
      if Flag(rbuf[0], 0x10) {
        Slice(rbuf, rbc, 22, n);
        var opcode := rbuf[rbc + 0];
        var capptag := GetWord16(rbuf, rbc + 1);
        SubSlice(rbuf, rbc, 22, 1, 3);
        var dl := rbuf[rbc + 3];
        var pl := rbuf[rbc + 4];
        var be := GetWord64(rbuf, rbc + 5);
        SubSlice(rbuf, rbc, 22, 5, 13);
        var end := rbuf[rbc + 13];
        var pa := GetWord64(rbuf, rbc + 14);
        SubSlice(rbuf, rbc, 22, 14, 22);
        host := host.(cmd := Some(HostCmd(opcode, capptag, dl, pl, be, end, pa)));
        rbc' := rbc + 22;
      } else {
        host := host.(cmd := None);
        afu := afu.(credits := afu.credits.(cmd := 0));
      }
    }

    method ParseHostCmdData(rbc: nat, count: nat, ghost n: nat) returns (rbc': nat)
      requires Valid() && 5 <= rbc <= n <= rbuf.Length && (Flag(rbuf[0], 0x08) ==> rbc + count + 1 <= n)
      requires count <= 256
      modifies this`host
      ensures rbc' == rbc + if Flag(rbuf[0], 0x08) then count + 1 else 0
      ensures TakeBeat(Flag(rbuf[0], 0x08), count, rbuf[rbc..n]) == (host.cmdData, rbuf[rbc'..n])
      ensures host == old(host).(cmdData := host.cmdData) && (host.cmdData.Some? <==> Flag(rbuf[0], 0x08))
    {
      hide FromBigEndian, From16, From32, From64;
      rbc' := rbc;
      if Flag(rbuf[0], 0x08) {
        Slice(rbuf, rbc, count + 1, n);
        var bdi := rbuf[rbc + 0];
        var bytes := GetBytes(rbuf, rbc + 1, count);
        host := host.(cmdData := Some(DataBeat(bdi, bytes)));
        rbc' := rbc + count + 1;
      } else {
        host := host.(cmdData := None);
      }
    }

    method ParseHostResp(rbc: nat, ghost n: nat) returns (rbc': nat)
      requires Valid() && 5 <= rbc <= n <= rbuf.Length && (Flag(rbuf[0], 0x04) ==> rbc + 7 <= n)
      modifies this`host, this`afu
      ensures rbc' == rbc + if Flag(rbuf[0], 0x04) then 7 else 0
      ensures TakeHostResp(Flag(rbuf[0], 0x04), rbuf[rbc..n]) == (host.resp, rbuf[rbc'..n])
      ensures host == old(host).(resp := host.resp) && (host.resp.Some? <==> Flag(rbuf[0], 0x04))
      ensures afu == old(afu).(credits := old(afu.credits).(
        resp := if Flag(rbuf[0], 0x04) then old(afu.credits.resp) else 0))
    {
      hide FromBigEndian, From16, From32, From64;
      rbc' := rbc;
      if Flag(rbuf[0], 0x04) {
        Slice(rbuf, rbc, 7, n);
        var opcode := rbuf[rbc + 0];
        var afutag := GetWord16(rbuf, rbc + 1);
        SubSlice(rbuf, rbc, 7, 1, 3);
        var code := rbuf[rbc + 3];
        var pgSize := rbuf[rbc + 4];
        var dl := rbuf[rbc + 5];
        var dp := rbuf[rbc + 6];
        host := host.(resp := Some(HostResp(opcode, afutag, code, pgSize, dl, dp)));
        rbc' := rbc + 7;
      } else {
        host := host.(resp := None);
        afu := afu.(credits := afu.credits.(resp := 0));
      }
    }

    method ParseHostRespData(rbc: nat, count: nat, ghost n: nat) returns (rbc': nat)
      requires Valid() && 5 <= rbc <= n <= rbuf.Length && (Flag(rbuf[0], 0x02) ==> rbc + count + 1 <= n)
      requires count <= 256
      modifies this`host
      ensures rbc' == rbc + if Flag(rbuf[0], 0x02) then count + 1 else 0
      ensures TakeBeat(Flag(rbuf[0], 0x02), count, rbuf[rbc..n]) == (host.respData, rbuf[rbc'..n])
      ensures host == old(host).(respData := host.respData) && (host.respData.Some? <==> Flag(rbuf[0], 0x02))
    {
      hide FromBigEndian, From16, From32, From64;
      rbc' := rbc;
      if Flag(rbuf[0], 0x02) {
        Slice(rbuf, rbc, count + 1, n);
        var bdi := rbuf[rbc + 0];
        var bytes := GetBytes(rbuf, rbc + 1, count);
        host := host.(respData := Some(DataBeat(bdi, bytes)));
        rbc' := rbc + count + 1;
      } else {
        host := host.(respData := None);
      }
    }

    /** Returned credits are counted as they are parsed. */
    method ParseHostCredits(rbc: nat, ghost n: nat)
      requires Valid() && 5 <= rbc <= n <= rbuf.Length && n == rbc + if Flag(rbuf[0], 0x01) then 9 else 0
      modifies this`host, this`avail
      ensures Flag(rbuf[0], 0x01) ==> var c := HostCreditsOf(rbuf[rbc..n]);
        && host == old(host).(creditValid := true, credits := c)
        && avail == E.HostReturned(old(avail), c)
      ensures !Flag(rbuf[0], 0x01) ==> avail == old(avail) && host == old(host).(
        creditValid := false, credits := old(host.credits).(cmd := 0, resp := 0, cmdData := 0, respData := 0))
    {
      if Flag(rbuf[0], 0x01) {
        var c := HostCredits(rbuf[rbc], rbuf[rbc + 1], rbuf[rbc + 2], rbuf[rbc + 3], rbuf[rbc + 4],
                             rbuf[rbc + 5], rbuf[rbc + 6], rbuf[rbc + 7], rbuf[rbc + 8]);
        host := host.(creditValid := true, credits := c);
        if c.cmd == 1 {
          avail := avail.(tlxAfuCmd := Inc8(avail.tlxAfuCmd));
        }
        if c.resp == 1 {
          avail := avail.(tlxAfuResp := Inc8(avail.tlxAfuResp));
        }
        if c.cmdData == 1 {
          avail := avail.(tlxAfuCmdData := Inc8(avail.tlxAfuCmdData));
        }
        if c.respData == 1 {
          avail := avail.(tlxAfuRespData := Inc8(avail.tlxAfuRespData));
        }
      } else {
        host := host.(creditValid := false, credits := host.credits.(cmd := 0, resp := 0, cmdData := 0, respData := 0));
      }
    }

    // ---------- parsing, host side ----------

    method ParseAfuCmd(rbc: nat, ghost n: nat) returns (rbc': nat)
      requires Valid() && 5 <= rbc <= n <= rbuf.Length && (Flag(rbuf[0], 0x02) ==> rbc + 34 <= n)
      modifies this`afu, this`host
      ensures rbc' == rbc + if Flag(rbuf[0], 0x02) then 34 else 0
      ensures TakeAfuCmd(Flag(rbuf[0], 0x02), rbuf[rbc..n]) == (afu.cmd, rbuf[rbc'..n])
      ensures afu == old(afu).(cmd := afu.cmd) && (afu.cmd.Some? <==> Flag(rbuf[0], 0x02))
      ensures host == old(host).(creditValid := old(host.creditValid) || Flag(rbuf[0], 0x02),
        credits := old(host.credits).(cmd := Bit(Flag(rbuf[0], 0x02))))
    {
      hide FromBigEndian, From16, From32, From64;
      rbc' := rbc;
      if Flag(rbuf[0], 0x02) {
        host := host.(creditValid := true, credits := host.credits.(cmd := 1));
        Slice(rbuf, rbc, 34, n);
        var opcode := rbuf[rbc + 0];
        var actag := GetWord16(rbuf, rbc + 1);
        SubSlice(rbuf, rbc, 34, 1, 3);
        var streamId := rbuf[rbc + 3];
        var eaOrObj := GetBytes(rbuf, rbc + 4, 9);
        SubSlice(rbuf, rbc, 34, 4, 13);
        var afutag := GetWord16(rbuf, rbc + 13);
        SubSlice(rbuf, rbc, 34, 13, 15);
        var dl := rbuf[rbc + 15];
        var pl := rbuf[rbc + 16];
        var be := GetWord64(rbuf, rbc + 17);
        SubSlice(rbuf, rbc, 34, 17, 25);
        var flag := rbuf[rbc + 25];
        var endian := rbuf[rbc + 26];
        var bdf := GetWord16(rbuf, rbc + 27);
        SubSlice(rbuf, rbc, 34, 27, 29);
        var pasid := GetWord32(rbuf, rbc + 29);
        SubSlice(rbuf, rbc, 34, 29, 33);
        var pgSize := rbuf[rbc + 33];
        afu := afu.(cmd := Some(AfuCmd(opcode, actag, streamId, eaOrObj, afutag, dl, pl, be, flag, endian, bdf, pasid,
            pgSize)));
        rbc' := rbc + 34;
      } else {
        afu := afu.(cmd := None);
        host := host.(credits := host.credits.(cmd := 0));
      }
    }

    method ParseAfuCmdData(rbc: nat, ghost n: nat) returns (rbc': nat)
      requires Valid() && 5 <= rbc <= n <= rbuf.Length && (Flag(rbuf[0], 0x04) ==> rbc + 65 <= n)
      modifies this`afu, this`host
      ensures rbc' == rbc + if Flag(rbuf[0], 0x04) then 65 else 0
      ensures TakeLine(Flag(rbuf[0], 0x04), rbuf[rbc..n]) == (afu.cmdData, rbuf[rbc'..n])
      ensures afu == old(afu).(cmdData := afu.cmdData) && (afu.cmdData.Some? <==> Flag(rbuf[0], 0x04))
      ensures host == old(host).(creditValid := old(host.creditValid) || Flag(rbuf[0], 0x04),
        credits := old(host.credits).(cmdData := Bit(Flag(rbuf[0], 0x04))))
    {
      hide FromBigEndian, From16, From32, From64;
      rbc' := rbc;
      if Flag(rbuf[0], 0x04) {
        host := host.(creditValid := true, credits := host.credits.(cmdData := 1));
        Slice(rbuf, rbc, 65, n);
        var bdi := rbuf[rbc + 0];
        var bytes := GetBytes(rbuf, rbc + 1, 64);
        afu := afu.(cmdData := Some(LineBeat(bdi, bytes)));
        rbc' := rbc + 65;
      } else {
        afu := afu.(cmdData := None);
        host := host.(credits := host.credits.(cmdData := 0));
      }
    }

    method ParseAfuResp(rbc: nat, ghost n: nat) returns (rbc': nat)
      requires Valid() && 5 <= rbc <= n <= rbuf.Length && (Flag(rbuf[0], 0x08) ==> rbc + 6 <= n)
      modifies this`afu, this`host
      ensures rbc' == rbc + if Flag(rbuf[0], 0x08) then 6 else 0
      ensures TakeAfuResp(Flag(rbuf[0], 0x08), rbuf[rbc..n]) == (afu.resp, rbuf[rbc'..n])
      ensures afu == old(afu).(resp := afu.resp) && (afu.resp.Some? <==> Flag(rbuf[0], 0x08))
      ensures host == old(host).(credits := old(host.credits).(
        resp := if Flag(rbuf[0], 0x08) then old(host.credits.resp) else 0))
    {
      hide FromBigEndian, From16, From32, From64;
      rbc' := rbc;
      if Flag(rbuf[0], 0x08) {
        Slice(rbuf, rbc, 6, n);
        var opcode := rbuf[rbc + 0];
        var dl := rbuf[rbc + 1];
        var capptag := GetWord16(rbuf, rbc + 2);
        SubSlice(rbuf, rbc, 6, 2, 4);
        var dp := rbuf[rbc + 4];
        var code := rbuf[rbc + 5];
        afu := afu.(resp := Some(AfuResp(opcode, dl, capptag, dp, code)));
        rbc' := rbc + 6;
      } else {
        afu := afu.(resp := None);
        host := host.(credits := host.credits.(resp := 0));
      }
    }

    method ParseAfuRespData(rbc: nat, ghost n: nat) returns (rbc': nat)
      requires Valid() && 5 <= rbc <= n <= rbuf.Length && (Flag(rbuf[0], 0x20) ==> rbc + 65 <= n)
      modifies this`afu, this`host
      ensures rbc' == rbc + if Flag(rbuf[0], 0x20) then 65 else 0
      ensures TakeLine(Flag(rbuf[0], 0x20), rbuf[rbc..n]) == (afu.respData, rbuf[rbc'..n])
      ensures afu == old(afu).(respData := afu.respData) && (afu.respData.Some? <==> Flag(rbuf[0], 0x20))
      ensures host == old(host).(credits := old(host.credits).(
        respData := if Flag(rbuf[0], 0x20) then old(host.credits.respData) else 0))
    {
      hide FromBigEndian, From16, From32, From64;
      rbc' := rbc;
      if Flag(rbuf[0], 0x20) {
        Slice(rbuf, rbc, 65, n);
        var bdi := rbuf[rbc + 0];
        var bytes := GetBytes(rbuf, rbc + 1, 64);
        afu := afu.(respData := Some(LineBeat(bdi, bytes)));
        rbc' := rbc + 65;
      } else {
        afu := afu.(respData := None);
        host := host.(credits := host.credits.(respData := 0));
      }
    }

    method ParseCfgResp(rbc: nat, ghost n: nat) returns (rbc': nat)
      requires Valid() && 5 <= rbc <= n <= rbuf.Length && (Flag(rbuf[0], 0x40) ==> rbc + 9 <= n)
      modifies this`afu
      ensures rbc' == rbc + if Flag(rbuf[0], 0x40) then 9 else 0
      ensures TakeCfgResp(Flag(rbuf[0], 0x40), rbuf[rbc..n]) == (afu.cfgResp, rbuf[rbc'..n])
      ensures afu == old(afu).(cfgResp := afu.cfgResp) && (afu.cfgResp.Some? <==> Flag(rbuf[0], 0x40))
    {
      hide FromBigEndian, From16, From32, From64;
      rbc' := rbc;
      if Flag(rbuf[0], 0x40) {
        Slice(rbuf, rbc, 9, n);
        var opcode := rbuf[rbc + 0];
        var capptag := GetWord16(rbuf, rbc + 1);
        SubSlice(rbuf, rbc, 9, 1, 3);
        var code := rbuf[rbc + 3];
        var bdi := rbuf[rbc + 4];
        var bus := GetBytes(rbuf, rbc + 5, 4);
        SubSlice(rbuf, rbc, 9, 5, 9);
        afu := afu.(cfgResp := Some(CfgResp(opcode, capptag, code, bdi, bus)));
        rbc' := rbc + 9;
      } else {
        afu := afu.(cfgResp := None);
      }
    }

    method ParseAfuCredits(rbc: nat, ghost n: nat)
      requires Valid() && 5 <= rbc <= n <= rbuf.Length && n == rbc + if Flag(rbuf[0], 0x01) then 10 else 0
      modifies this`afu, this`avail
      ensures Flag(rbuf[0], 0x01) ==> var c := AfuCreditsOf(rbuf[rbc..n]);
        && afu == old(afu).(creditReqValid := true, credits := E.AfuCounted(c))
        && avail == E.AfuReturned(old(avail), c)
      ensures !Flag(rbuf[0], 0x01) ==> avail == old(avail) && afu == old(afu).(creditReqValid := false)
    {
      if Flag(rbuf[0], 0x01) {
        var c := AfuCredits(rbuf[rbc], rbuf[rbc + 1], rbuf[rbc + 2], rbuf[rbc + 3], rbuf[rbc + 4], rbuf[rbc + 5],
                            rbuf[rbc + 6], rbuf[rbc + 7], rbuf[rbc + 8], rbuf[rbc + 9]);
        assert c == AfuCreditsOf(rbuf[rbc..n]) by { assert |rbuf[rbc..n]| == 10; }
        hide AfuCreditsOf;
        afu := afu.(creditReqValid := true, credits := c);
        if c.cmd == 1 {
          avail := avail.(afuTlxCmd := Inc8(avail.afuTlxCmd));
          afu := afu.(credits := afu.credits.(cmd := 0));
        }
        if c.cfg == 1 {
          avail := avail.(cfgTlx := Inc8(avail.cfgTlx));
          afu := afu.(credits := afu.credits.(cfg := 0));
        }
        if c.resp == 1 {
          avail := avail.(afuTlxResp := Inc8(avail.afuTlxResp));
          afu := afu.(credits := afu.credits.(resp := 0));
        }
      } else {
        afu := afu.(creditReqValid := false);
      }
    }

    // ---------- receiving ----------

    /** recv() puts the bytes of one packet at the front of rbuf. */
    method Receive(packet: seq<Byte>)
      requires Valid() && |packet| <= TLX_BUFFER_SIZE
      modifies rbuf
      ensures rbuf[..|packet|] == packet
    {
      for i := 0 to |packet|
        invariant rbuf[..i] == packet[..i]
      {
        rbuf[i] := packet[i];
      }
    }

    method ParseHostTailGroups(rbc: nat, count: nat, ghost n: nat)
      requires Valid() && 5 <= rbc <= n <= rbuf.Length && count <= 256
      requires n == rbc + (if Flag(rbuf[0], 0x04) then 7 else 0) + (if Flag(rbuf[0], 0x02) then count + 1 else 0)
        + (if Flag(rbuf[0], 0x01) then 9 else 0)
      modifies this`host, this`afu, this`avail
      ensures (host.resp, host.respData, E.HostOut(host).credits)
        == ParseHostTail(HostPresenceOf(rbuf[0]), count, rbuf[rbc..n])
      ensures host == old(host).(resp := host.resp, respData := host.respData, creditValid := host.creditValid,
        credits := host.credits)
      ensures !host.creditValid ==> host.credits == old(host.credits).(cmd := 0, resp := 0, cmdData := 0, respData := 0)
      ensures avail == if host.creditValid then E.HostReturned(old(avail), host.credits) else old(avail)
      ensures afu == old(afu).(credits := old(afu.credits).(
        resp := if host.resp.Some? then old(afu.credits.resp) else 0))
    {
      hide TakeHostResp, TakeBeat, HostCreditsOf, Flag, E.HostReturned;
      var rbc := rbc;
      rbc := ParseHostResp(rbc, n);
      rbc := ParseHostRespData(rbc, count, n);
      ParseHostCredits(rbc, n);
    }

    /** The groups of a host packet longer than a clock byte. */
    method DecodeHostGroups(cmdCount: nat, respCount: nat, ghost n: nat)
      requires Valid() && 5 <= n <= rbuf.Length && cmdCount <= 256 && respCount <= 256
      requires n == HostReceiveLength(HostPresenceOf(rbuf[0]), cmdCount, respCount)
      modifies this`host, this`afu, this`avail
      ensures View() == E.AfuTakes(old(View()), ParseHostBody(HostPresenceOf(rbuf[0]), cmdCount, respCount, rbuf[5..n]))
    {
      hide TakeCfg, TakeHostCmd, TakeBeat, ParseHostTail, Flag, E.HostReturned;
      var rbc := 5;
      rbc := ParseCfg(rbc, n);
      rbc := ParseHostCmd(rbc, n);
      rbc := ParseHostCmdData(rbc, cmdCount, n);
      ParseHostTailGroups(rbc, respCount, n);
    }

    /** tlx_get_tlx_events on a packet delivered whole: a clock makes the AFU answer before it decodes. */
    method GetTlxEvents(packet: seq<Byte>) returns (sent: seq<seq<Byte>>)
      requires Valid() && WholeHostPacket(packet)
      modifies this`clock, this`host, this`afu, this`avail, tbuf, rbuf
      ensures (View(), sent) == E.GetTlxEvents(old(View()), packet)
    {
      hide ParseHostBody, E.AfuTakes, E.SignalTlxModel;
      ghost var n := |packet|;
      Receive(packet);
      assert rbuf[0] == packet[0];
      sent := [];
      if Flag(rbuf[0], 0x40) {
        clock := true;
        sent := SignalTlxModel();
        if rbuf[0] == 0x40 {
          return;
        }
      }
      var cmdCount: nat := (rbuf[1] as int) * 0x100 + rbuf[2] as int;
      var respCount: nat := (rbuf[3] as int) * 0x100 + rbuf[4] as int;
      assert rbuf[..n][5..] == rbuf[5..n];
      DecodeHostGroups(cmdCount, respCount, n);
    }

    method ParseAfuTailGroups(rbc: nat, ghost n: nat)
      requires Valid() && 5 <= rbc <= n <= rbuf.Length
      requires n == rbc + (if Flag(rbuf[0], 0x20) then 65 else 0) + (if Flag(rbuf[0], 0x40) then 9 else 0)
        + (if Flag(rbuf[0], 0x01) then 10 else 0)
      modifies this`host, this`afu, this`avail
      ensures var (respData, cfgResp, credits) := ParseAfuTail(AfuPresenceOf(rbuf[0]), rbuf[rbc..n]);
        && afu == old(afu).(respData := respData, cfgResp := cfgResp, creditReqValid := credits.Some?,
                            credits := if credits.Some? then E.AfuCounted(credits.value) else old(afu.credits))
        && avail == (if credits.Some? then E.AfuReturned(old(avail), credits.value) else old(avail))
        && host == old(host).(credits := old(host.credits).(
             respData := if respData.Some? then old(host.credits.respData) else 0))
    {
      hide TakeLine, TakeCfgResp, AfuCreditsOf, Flag, E.AfuCounted, E.AfuReturned;
      var rbc := rbc;
      rbc := ParseAfuRespData(rbc, n);
      rbc := ParseCfgResp(rbc, n);
      ParseAfuCredits(rbc, n);
    }

    method DecodeAfuGroups(ghost n: nat)
      requires Valid() && 5 <= n <= rbuf.Length && n == AfuReceiveLength(AfuPresenceOf(rbuf[0]), 64, 64)
      modifies this`host, this`afu, this`avail
      ensures View() == E.HostTakes(old(View()), ParseAfuBody(AfuPresenceOf(rbuf[0]), rbuf[5..n]))
    {
      hide TakeAfuCmd, TakeLine, TakeAfuResp, ParseAfuTail, Flag, E.AfuCounted, E.AfuReturned;
      var rbc := 5;
      rbc := ParseAfuCmd(rbc, n);
      rbc := ParseAfuCmdData(rbc, n);
      rbc := ParseAfuResp(rbc, n);
      ParseAfuTailGroups(rbc, n);
    }

    /** tlx_get_afu_events on a packet delivered whole. */
    method GetAfuEvents(packet: seq<Byte>)
      requires Valid() && WholeAfuPacket(packet)
      modifies this`clock, this`host, this`afu, this`avail, rbuf
      ensures View() == E.GetAfuEvents(old(View()), packet)
    {
      hide ParseAfuBody, E.HostTakes;
      ghost var n := |packet|;
      Receive(packet);
      assert rbuf[0] == packet[0];
      if Flag(rbuf[0], 0x10) {
        clock := false;
        if rbuf[0] == 0x10 {
          return;
        }
      }
      assert rbuf[..n][5..] == rbuf[5..n];
      DecodeAfuGroups(n);
    }

    // ---------- calls made by ocse ----------

    /** tlx_afu_send_initial_credits. */
    method SendInitialCredits(cmd: Byte, resp: Byte, cmdData: Byte, respData: Byte)
      modifies this`host
      ensures View() == E.SendInitialCredits(old(View()), cmd, resp, cmdData, respData)
    {
      host := host.(creditValid := true, credits := host.credits.(
        cmdInitial := cmd, respInitial := resp, cmdDataInitial := cmdData, respDataInitial := respData));
    }

    /** afu_tlx_read_initial_credits. */
    method HostReadInitialCredits() returns (rc: E.Rc)
      modifies this`afu, this`avail
      ensures (rc, View()) == E.HostReadInitialCredits(old(View()))
    {
      if !afu.creditReqValid {
        return E.NoCredits;
      }
      afu := afu.(creditReqValid := false);
      avail := avail.(cfgTlx := afu.credits.cfgInitial, afuTlxCmd := afu.credits.cmdInitial,
                      afuTlxResp := afu.credits.respInitial);
      rc := E.Success;
    }

    /** tlx_afu_send_resp. */
    method SendResp(r: HostResp) returns (rc: E.Rc)
      modifies this`host, this`avail
      ensures (rc, View()) == E.SendResp(old(View()), r)
    {
      if avail.afuTlxResp == 0 {
        return E.NoCredits;
      }
      if host.resp.Some? {
        return E.Double;
      }
      host := host.(resp := Some(r));
      avail := avail.(afuTlxResp := Dec8(avail.afuTlxResp));
      rc := E.Success;
    }

    /** tlx_afu_send_resp_and_data, with respData as the 256-byte buffer its caller passes. */
    method SendRespAndData(r: HostResp, bdi: Byte, data: seq<Byte>) returns (rc: E.Rc)
      requires 1 <= r.dl <= 3 && r.dp % 4 * 64 + DlToSize(r.dl) <= |data|
      modifies this`host, this`avail
      ensures (rc, View()) == E.SendRespAndData(old(View()), r, bdi, data)
    {
      if avail.afuTlxResp == 0 {
        return E.NoCredits;
      }
      if host.resp.Some? || host.respData.Some? {
        return E.Double;
      }
      var from := r.dp % 4 * 64;
      host := host.(resp := Some(r), respData := Some(DataBeat(bdi, data[from..from + DlToSize(r.dl)])));
      avail := avail.(afuTlxResp := Dec8(avail.afuTlxResp));
      rc := E.Success;
    }

    /** tlx_afu_send_cmd and tlx_afu_send_cmd_and_data. */
    method SendCmd(c: HostCmd, data: Option<DataBeat>) returns (rc: E.Rc)
      modifies this`host, this`avail
      ensures (rc, View()) == E.SendCmd(old(View()), c, data)
    {
      if host.cmd.Some? {
        return E.Double;
      }
      host := host.(cmd := Some(c));
      if data.Some? {
        host := host.(cmdData := data);
      }
      avail := avail.(afuTlxCmd := Dec8(avail.afuTlxCmd));
      rc := E.Success;
    }

    /** tlx_afu_send_cfg_cmd_and_data. */
    method SendCfg(c: CfgCmd, held: E.CfgBus) returns (rc: E.Rc)
      modifies this`host, this`avail
      ensures (rc, View()) == E.SendCfg(old(View()), c, held)
    {
      if host.cfg.Some? {
        return E.Double;
      }
      if c.opcode != 0xE0 && c.opcode != 0xE1 {
        return E.NotCfg;
      }
      if avail.cfgTlx == 0 {
        return E.NoCredits;
      }
      avail := avail.(cfgTlx := Dec8(avail.cfgTlx));
      var bus := held;
      if c.opcode == E.CONFIG_WRITE {
        var byteCount := if c.pl == 2 then 4 else 0;
        bus := E.CfgBus(c.bdi, if byteCount == 0 then E.FILL else c.bus);
      }
      host := host.(cfg := Some(c.(bdi := bus.bdi, bus := bus.bus)));
      rc := E.Success;
    }

    /** afu_tlx_read_cfg_resp_and_data; only the response with the capptag asked for is taken. */
    method ReadCfgResp(capptag: U16) returns (rc: E.Rc, r: Option<E.CfgRead>)
      modifies this`afu, this`host
      ensures (rc, r, View()) == E.ReadCfgResp(old(View()), capptag)
    {
      if afu.cfgResp.None? {
        return E.NotValid, None;
      }
      var resp := afu.cfgResp.value;
      if resp.capptag != capptag {
        return E.NotCfg, None;
      }
      var data := None;
      if resp.opcode == E.AFU_RSP_MEM_RD_RESP {
        data := Some(E.CfgBus(resp.bdi, resp.bus));
      }
      rc, r := E.Success, Some(E.CfgRead(resp.opcode, resp.code, data));
      afu := afu.(cfgResp := None);
      host := host.(creditValid := true, credits := host.credits.(cfgAck := 1));
    }

    /** afu_tlx_read_cmd_and_data. */
    method ReadCmdAndData() returns (c: Option<(AfuCmd, Option<LineBeat>)>)
      modifies this`afu
      ensures (c, View()) == E.ReadCmdAndData(old(View()))
    {
      if afu.cmd.None? {
        return None;
      }
      c := Some((afu.cmd.value, afu.cmdData));
      afu := afu.(cmd := None, cmdData := None);
    }

    /** afu_tlx_read_cmd_data. */
    method ReadCmdData() returns (b: Option<LineBeat>)
      modifies this`afu
      ensures (b, View()) == E.ReadCmdData(old(View()))
    {
      b := afu.cmdData;
      afu := afu.(cmdData := None);
    }

    /** A caller that cannot use the beat it read sets the valid flag again. */
    method RestoreCmdData(b: LineBeat)
      modifies this`afu
      ensures View() == E.RestoreCmdData(old(View()), b)
    {
      afu := afu.(cmdData := Some(b));
    }

    /** afu_tlx_read_resp: reading the response is what returns its credit. */
    method ReadResp() returns (r: Option<AfuResp>)
      modifies this`afu, this`host
      ensures (r, View()) == E.ReadResp(old(View()))
    {
      if afu.resp.None? {
        return None;
      }
      r := afu.resp;
      afu := afu.(resp := None);
      host := host.(creditValid := true, credits := host.credits.(resp := 1));
    }

    /** afu_tlx_read_resp_data. */
    method ReadRespData() returns (b: Option<LineBeat>)
      modifies this`afu, this`host
      ensures (b, View()) == E.ReadRespData(old(View()))
    {
      if afu.respData.None? {
        return None;
      }
      b := afu.respData;
      afu := afu.(respData := None);
      host := host.(creditValid := true, credits := host.credits.(respData := 1));
    }

    // ---------- calls made by the AFU driver ----------

    /** afu_tlx_send_initial_credits. */
    method AfuSendInitialCredits(cmd: Byte, cfg: Byte, resp: Byte)
      modifies this`afu
      ensures View() == E.AfuSendInitialCredits(old(View()), cmd, cfg, resp)
    {
      afu := afu.(creditReqValid := true,
          credits := afu.credits.(cmdInitial := cmd, cfgInitial := cfg, respInitial := resp));
    }

    /** tlx_afu_read_initial_credits. */
    method AfuReadInitialCredits() returns (rc: E.Rc)
      modifies this`host, this`avail
      ensures (rc, View()) == E.AfuReadInitialCredits(old(View()))
    {
      if !host.creditValid {
        return E.NoCredits;
      }
      host := host.(creditValid := false);
      avail := avail.(tlxAfuCmd := host.credits.cmdInitial, tlxAfuResp := host.credits.respInitial,
                      tlxAfuCmdData := host.credits.cmdDataInitial, tlxAfuRespData := host.credits.respDataInitial);
      rc := E.Success;
    }

    /** afu_tlx_send_cmd. */
    method AfuSendCmd(c: AfuCmd) returns (rc: E.Rc)
      modifies this`afu, this`avail
      ensures (rc, View()) == E.AfuSendCmd(old(View()), c)
    {
      if avail.tlxAfuCmd == 0 {
        return E.NoCredits;
      }
      if afu.cmd.Some? {
        return E.Double;
      }
      afu := afu.(cmd := Some(c));
      avail := avail.(tlxAfuCmd := Dec8(avail.tlxAfuCmd));
      rc := E.Success;
    }

    /** afu_tlx_send_cmd_data. */
    method AfuSendCmdData(b: LineBeat) returns (rc: E.Rc)
      modifies this`afu, this`avail
      ensures (rc, View()) == E.AfuSendCmdData(old(View()), b)
    {
      if avail.tlxAfuCmdData == 0 {
        return E.NoCredits;
      }
      afu := afu.(cmdData := Some(b));
      avail := avail.(tlxAfuCmdData := Dec8(avail.tlxAfuCmdData));
      rc := E.Success;
    }

    /** afu_tlx_send_resp. */
    method AfuSendResp(r: AfuResp) returns (rc: E.Rc)
      modifies this`afu, this`avail
      ensures (rc, View()) == E.AfuSendResp(old(View()), r)
    {
      if avail.tlxAfuResp == 0 {
        return E.NoCredits;
      }
      if afu.resp.Some? {
        return E.Double;
      }
      afu := afu.(resp := Some(r));
      avail := avail.(tlxAfuResp := Dec8(avail.tlxAfuResp));
      rc := E.Success;
    }

    /** afu_tlx_send_resp_data. */
    method AfuSendRespData(b: LineBeat) returns (rc: E.Rc)
      modifies this`afu, this`avail
      ensures (rc, View()) == E.AfuSendRespData(old(View()), b)
    {
      if avail.tlxAfuRespData == 0 {
        return E.NoCredits;
      }
      if afu.respData.Some? {
        return E.Double;
      }
      afu := afu.(respData := Some(b));
      avail := avail.(tlxAfuRespData := Dec8(avail.tlxAfuRespData));
      rc := E.Success;
    }

    /** afu_tlx_send_resp_and_data. */
    method AfuSendRespAndData(r: AfuResp, b: LineBeat) returns (rc: E.Rc)
      modifies this`afu, this`avail
      ensures (rc, View()) == E.AfuSendRespAndData(old(View()), r, b)
    {
      if avail.tlxAfuResp == 0 || avail.tlxAfuRespData == 0 {
        return E.NoCredits;
      }
      if afu.resp.Some? || afu.respData.Some? {
        return E.Double;
      }
      afu := afu.(resp := Some(r), respData := Some(b));
      avail := avail.(tlxAfuResp := Dec8(avail.tlxAfuResp), tlxAfuRespData := Dec8(avail.tlxAfuRespData));
      rc := E.Success;
    }

    /** afu_cfg_send_resp_and_data. */
    method AfuSendCfgResp(r: CfgResp) returns (rc: E.Rc)
      modifies this`afu
      ensures (rc, View()) == E.AfuSendCfgResp(old(View()), r)
    {
      if afu.cfgResp.Some? {
        return E.Double;
      }
      afu := afu.(cfgResp := Some(if r.opcode != E.AFU_RSP_MEM_RD_RESP then r.(bus := E.FILL) else r));
      rc := E.Success;
    }
  }
}
